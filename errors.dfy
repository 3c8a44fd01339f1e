/** JSON-RPC 2.0 error objects and the error codes the library defines (jsonrpc/errors.go). */
module JsonRpcErrors {
  import opened Wrappers
  import opened Text

  /** An undecoded JSON value (`json.RawMessage`); the empty sequence is Go's nil/empty raw message. */
  type Json = Bytes

  // Standard JSON-RPC 2.0 codes.
  const ParseError: int := -32700
  const InvalidRequest: int := -32600
  const MethodNotFound: int := -32601
  const InvalidParams: int := -32602
  const InternalError: int := -32603

  // Codes added by the Language Server Protocol.
  const ServerNotInitialized: int := -32002
  const RequestCancelled: int := -32800
  const ContentModified: int := -32801
  const ServerCancelled: int := -32802
  const RequestFailed: int := -32803

  /** The ten codes, the standard five first. */
  const Codes: seq<int> := [
    ParseError, InvalidRequest, MethodNotFound, InvalidParams, InternalError,
    ServerNotInitialized, RequestCancelled, ContentModified, ServerCancelled, RequestFailed]

  /** The codes are negative and pairwise distinct, so a code names one condition. */
  lemma CodesDistinctNegative()
    ensures |Codes| == 10
    ensures forall i | 0 <= i < |Codes| :: Codes[i] < 0
    ensures forall i, j | 0 <= i < j < |Codes| :: Codes[i] != Codes[j]
  {
  }

  /** A JSON-RPC error object: `data` is optional raw JSON, omitted from the wire when nil. */
  datatype ResponseError = ResponseError(code: int, message: string, data: Option<Json>)

  /** `NewError`: an error object without data. */
  function NewError(code: int, message: string): (e: ResponseError)
    ensures e.code == code && e.message == message && e.data == None
  {
    ResponseError(code, message, None)
  }

  const ErrorTextPrefix: string := "jsonrpc error "

  /** `(*ResponseError).Error()`: the code in decimal and the message, behind a fixed prefix. */
  function ErrorText(e: ResponseError): (s: string)
    ensures HasPrefix(s, ErrorTextPrefix)
    ensures |s| >= |ErrorTextPrefix| + |Decimal(e.code)| + 2 + |e.message|
    ensures s[|s| - |e.message|..] == e.message
  {
    ErrorTextPrefix + Decimal(e.code) + ": " + e.message
  }

  /** The text of an error determines its code and its message: the decimal code contains no colon. */
  lemma ErrorTextInjective(a: ResponseError, b: ResponseError)
    requires ErrorText(a) == ErrorText(b)
    ensures a.code == b.code && a.message == b.message
  {
    var p := |ErrorTextPrefix|;
    var da, db := Decimal(a.code), Decimal(b.code);
    assert ErrorText(a)[p..] == da + (": " + a.message);
    assert ErrorText(b)[p..] == db + (": " + b.message);
    SplitAtColon(da, db, ": " + a.message, ": " + b.message);
    DecimalInjective(a.code, b.code);
    assert a.message == (": " + a.message)[2..];
  }

  predicate NoColon(x: string) { forall i :: 0 <= i < |x| ==> x[i] != ':' }

  lemma {:induction false} SplitAtColon(x: string, y: string, m: string, n: string)
    requires NoColon(x) && NoColon(y)
    requires |m| > 0 && m[0] == ':' && |n| > 0 && n[0] == ':'
    requires x + m == y + n
    ensures x == y && m == n
    decreases |x|
  {
    assert (x + m)[0] == (y + n)[0];
    if |x| > 0 && |y| > 0 {
      assert (x + m)[1..] == x[1..] + m && (y + n)[1..] == y[1..] + n;
      SplitAtColon(x[1..], y[1..], m, n);
    } else {
      assert x + m == m && y + n == n;
    }
  }

  /** The members `encoding/json` writes for an error object: `data` only when it is set. */
  function ErrorMembers(e: ResponseError): (names: seq<string>)
    ensures "code" in names && "message" in names
    ensures ("data" in names) <==> e.data.Some?
  {
    ["code", "message"] + (if e.data.Some? then ["data"] else [])
  }
}
