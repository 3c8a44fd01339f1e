/**
 * JSON-RPC 2.0 messages (jsonrpc/message.go): request IDs, the three message kinds, their
 * constructors and the classification of a decoded body.
 *
 * `encoding/json` itself is not modelled. A decoded body is the `Envelope` record that Go's
 * `json.Unmarshal` fills (`rawMessage`), and a JSON value that is an ID is an `IdToken`.
 */
module JsonRpcMessage {
  import opened Wrappers
  import opened Text
  import opened JsonRpcErrors

  const Version: string := "2.0"

  /** A request ID: absent (Go's zero `ID`), a 64-bit integer or a string. */
  datatype Id = NoId | IntId(n: int64) | StringId(s: string)
  {
    predicate IsZero() { NoId? }
  }

  /** `ID.String()`: the string itself, the integer in decimal, and "" for the zero ID. */
  function IdString(id: Id): (s: string)
    ensures id.IntId? ==> s == Decimal(id.n as int)
    ensures id.StringId? ==> s == id.s
    ensures id.NoId? ==> s == ""
  {
    match id
    case NoId => ""
    case IntId(n) => Decimal(n as int)
    case StringId(s) => s
  }

  /** Two integer IDs have the same key only when they are the same number. */
  lemma IntIdStringInjective(a: int64, b: int64)
    requires IdString(IntId(a)) == IdString(IntId(b))
    ensures a == b
  {
    DecimalInjective(a as int, b as int);
  }

  /** An integer ID and the string ID spelling the same digits share one key. */
  lemma IntAndStringIdsShareKey(n: int64)
    ensures IntId(n) != StringId(Decimal(n as int))
    ensures IdString(IntId(n)) == IdString(StringId(Decimal(n as int)))
  {
  }

  /**
   * A JSON value in the position of an ID. `NumberToken(n)` is an integer literal of any size;
   * fractions, exponents, booleans, arrays and objects are `OtherToken`, carrying their text.
   */
  datatype IdToken = NullToken | NumberToken(n: int) | StringToken(s: string) | OtherToken(text: string)

  /** `ID.MarshalJSON`: `null` for the zero ID, otherwise the number or the string. */
  function MarshalId(id: Id): (t: IdToken)
    ensures t.NullToken? <==> id.IsZero()
    ensures id.IntId? ==> t == NumberToken(id.n as int)
    ensures id.StringId? ==> t == StringToken(id.s)
  {
    match id
    case NoId => NullToken
    case IntId(n) => NumberToken(n as int)
    case StringId(s) => StringToken(s)
  }

  /**
   * `ID.UnmarshalJSON`: `null` gives the zero ID; an integer that fits in `int64` an integer ID;
   * a string a string ID; anything else is the error "ID must be a string or number".
   */
  function UnmarshalId(t: IdToken): (r: Result<Id, DecodeError>)
    ensures r.Failure? <==> t.OtherToken? || (t.NumberToken? && !(MinInt64 <= t.n <= MaxInt64))
    ensures r.Failure? ==> r.error == BadId(t)
  {
    match t
    case NullToken => Success(NoId)
    case NumberToken(n) => if MinInt64 <= n <= MaxInt64 then Success(IntId(n as int64)) else Failure(BadId(t))
    case StringToken(s) => Success(StringId(s))
    case OtherToken(_) => Failure(BadId(t))
  }

  /** Every ID survives marshalling and unmarshalling. */
  lemma UnmarshalMarshalId(id: Id)
    ensures UnmarshalId(MarshalId(id)) == Success(id)
  {
  }

  /** Every token that decodes to an ID is the token that ID marshals to. */
  lemma MarshalUnmarshalId(t: IdToken)
    requires UnmarshalId(t).Success?
    ensures MarshalId(UnmarshalId(t).value) == t
  {
  }

  datatype Request = Request(jsonrpc: string, id: Id, methodName: string, params: Json)

  datatype Response = Response(jsonrpc: string, id: Id, result: Json, error: Option<ResponseError>)

  datatype Notification = Notification(jsonrpc: string, methodName: string, params: Json)

  /** What `DecodeMessage` returns: one of the three message kinds. */
  datatype Message = Req(req: Request) | Resp(resp: Response) | Notif(notif: Notification)

  /**
   * A Go value handed to the constructors as `any`, known to the model only by what
   * `json.Marshal` returns for it: the encoded bytes or the marshalling error.
   */
  datatype Value = Value(encoding: Result<Json, string>)

  /** The raw message for an optional value: nil stays empty, otherwise the marshalled bytes. */
  function Encode(v: Option<Value>): (r: Result<Json, string>)
    ensures v.None? ==> r == Success([])
    ensures v.Some? ==> r == v.value.encoding
  {
    match v
    case None => Success([])
    case Some(x) => x.encoding
  }

  /** `NewRequest`: version "2.0", the given ID and method, and the marshalled params. */
  function NewRequest(id: Id, methodName: string, params: Option<Value>): (r: Result<Request, string>)
    ensures r.Success? <==> Encode(params).Success?
    ensures r.Failure? ==> r.error == Encode(params).error
    ensures r.Success? ==> r.value == Request(Version, id, methodName, Encode(params).value)
  {
    match Encode(params)
    case Failure(e) => Failure(e)
    case Success(raw) => Success(Request(Version, id, methodName, raw))
  }

  /** `NewResponse`: a success response; a nil result leaves `result` empty (and so omitted). */
  function NewResponse(id: Id, result: Option<Value>): (r: Result<Response, string>)
    ensures r.Success? <==> Encode(result).Success?
    ensures r.Failure? ==> r.error == Encode(result).error
    ensures r.Success? ==> r.value == Response(Version, id, Encode(result).value, None)
  {
    match Encode(result)
    case Failure(e) => Failure(e)
    case Success(raw) => Success(Response(Version, id, raw, None))
  }

  /** `NewErrorResponse`: only the error is set. */
  function NewErrorResponse(id: Id, e: ResponseError): (r: Response)
    ensures r.jsonrpc == Version && r.id == id && r.result == [] && r.error == Some(e)
  {
    Response(Version, id, [], Some(e))
  }

  /** `NewNotification`: version "2.0", the method and the marshalled params. */
  function NewNotification(methodName: string, params: Option<Value>): (r: Result<Notification, string>)
    ensures r.Success? <==> Encode(params).Success?
    ensures r.Failure? ==> r.error == Encode(params).error
    ensures r.Success? ==> r.value == Notification(Version, methodName, Encode(params).value)
  {
    match Encode(params)
    case Failure(e) => Failure(e)
    case Success(raw) => Success(Notification(Version, methodName, raw))
  }

  /**
   * The members of a decoded body (`rawMessage`): `id`, `error` and `method` are nil-able
   * Go fields, so each may be absent; `params` and `result` are raw and empty when absent.
   */
  datatype Envelope = Envelope(
    jsonrpc: string,
    id: Option<IdToken>,
    methodName: Option<string>,
    params: Json,
    result: Json,
    error: Option<ResponseError>)

  /** Why a body is not a message. */
  datatype DecodeError =
    | MalformedJson(detail: string)   // json.Unmarshal of the body failed
    | BadId(token: IdToken)           // the id member is neither a string nor an int64
    | UnknownKind                     // neither an id nor a method

  /** The text of a decoding error, as `fmt.Errorf` renders it. */
  function DecodeErrorText(e: DecodeError): string
  {
    match e
    case MalformedJson(detail) => "jsonrpc: failed to decode message: " + detail
    case BadId(t) => "jsonrpc: ID must be a string or number, got " + TokenText(t)
    case UnknownKind => "jsonrpc: cannot determine message type"
  }

  /** The source text of a token that cannot be an ID (other tokens never reach the error). */
  function TokenText(t: IdToken): string
  {
    match t
    case NumberToken(n) => Decimal(n)
    case OtherToken(text) => text
    case NullToken => "null"
    case StringToken(s) => "\"" + s + "\""
  }

  /** The body carries an ID: the member is present and not `null`. */
  predicate HasId(env: Envelope) { env.id.Some? && env.id.value != NullToken }

  /**
   * `DecodeMessage`: an ID without a method is a response, an ID with a method a request, a method
   * without an ID a notification; the ID must decode, and a body with neither is an error.
   */
  function DecodeMessage(parsed: Result<Envelope, string>): (r: Result<Message, DecodeError>)
    ensures parsed.Failure? ==> r == Failure(MalformedJson(parsed.error))
    ensures parsed.Success? ==> var env := parsed.value;
      && (r.Success? && r.value.Resp? <==> HasId(env) && env.methodName.None? && UnmarshalId(env.id.value).Success?)
      && (r.Success? && r.value.Req? <==> HasId(env) && env.methodName.Some? && UnmarshalId(env.id.value).Success?)
      && (r.Success? && r.value.Notif? <==> !HasId(env) && env.methodName.Some?)
      && (r == Failure(UnknownKind) <==> !HasId(env) && env.methodName.None?)
      && (HasId(env) && UnmarshalId(env.id.value).Failure? ==> r == Failure(BadId(env.id.value)))
    ensures r.Success? && r.value.Resp? ==> var env := parsed.value;
      r.value.resp == Response(env.jsonrpc, UnmarshalId(env.id.value).value, env.result, env.error)
    ensures r.Success? && r.value.Req? ==> var env := parsed.value;
      r.value.req == Request(env.jsonrpc, UnmarshalId(env.id.value).value, env.methodName.value, env.params)
    ensures r.Success? && r.value.Notif? ==> var env := parsed.value;
      r.value.notif == Notification(env.jsonrpc, env.methodName.value, env.params)
    ensures r.Success? && !r.value.Notif? ==> (if r.value.Req? then r.value.req.id else r.value.resp.id) != NoId
  {
    match parsed
    case Failure(detail) => Failure(MalformedJson(detail))
    case Success(env) =>
      if HasId(env) then
        match UnmarshalId(env.id.value)
        case Failure(e) => Failure(e)
        case Success(id) =>
          if env.methodName.None? then Success(Resp(Response(env.jsonrpc, id, env.result, env.error)))
          else Success(Req(Request(env.jsonrpc, id, env.methodName.value, env.params)))
      else if env.methodName.Some? then Success(Notif(Notification(env.jsonrpc, env.methodName.value, env.params)))
      else Failure(UnknownKind)
  }

  /**
   * The members `json.Marshal` writes for a message: `id` always for requests and responses
   * (`null` for the zero ID), `method` always for requests and notifications, and `params`,
   * `result` and `error` only when set.
   */
  function Members(m: Message): (env: Envelope)
    ensures m.Notif? <==> env.id.None?
    ensures m.Resp? <==> env.methodName.None?
  {
    match m
    case Req(r) => Envelope(r.jsonrpc, Some(MarshalId(r.id)), Some(r.methodName), r.params, [], None)
    case Resp(r) => Envelope(r.jsonrpc, Some(MarshalId(r.id)), None, [], r.result, r.error)
    case Notif(n) => Envelope(n.jsonrpc, None, Some(n.methodName), n.params, [], None)
  }

  /** A request or response whose ID is the zero ID. */
  predicate HasZeroId(m: Message)
  {
    (m.Req? && m.req.id.IsZero()) || (m.Resp? && m.resp.id.IsZero())
  }

  /**
   * Decoding what a message marshals to gives the message back exactly when it has no zero ID:
   * a request with the zero ID comes back as a notification, a response with it as an error.
   */
  lemma DecodeMembers(m: Message)
    ensures DecodeMessage(Success(Members(m))) == Success(m) <==> !HasZeroId(m)
    ensures m.Req? && m.req.id.IsZero() ==>
      DecodeMessage(Success(Members(m))) == Success(Notif(Notification(m.req.jsonrpc, m.req.methodName, m.req.params)))
    ensures m.Resp? && m.resp.id.IsZero() ==> DecodeMessage(Success(Members(m))) == Failure(UnknownKind)
  {
    match m
    case Req(r) => UnmarshalMarshalId(r.id);
    case Resp(r) => UnmarshalMarshalId(r.id);
    case Notif(n) =>
  }
}
