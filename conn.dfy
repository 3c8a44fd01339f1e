/**
 * A JSON-RPC connection over a Content-Length framed byte stream (jsonrpc/conn.go): header
 * parsing, framing, serving, request cancellation and calls to the peer.
 *
 * The goroutines of the source become separate steps that may interleave: a request read starts
 * a goroutine, which later registers the request for cancellation and later still completes it;
 * a call is sent and then awaited.
 */
module JsonRpcConn {
  import opened Wrappers
  import opened Text
  import opened JsonRpcErrors
  import opened JsonRpcMessage
  import opened JsonRpcHandler

  /** The header name with its colon, "Content-Length:". */
  const ContentLengthKey: Bytes := [67, 111, 110, 116, 101, 110, 116, 45, 76, 101, 110, 103, 116, 104, 58]

  /** "Content-Length: <n>\r\n\r\n", the header `WriteMessage` puts before a body of `n` bytes. */
  function Header(n: nat): (h: Bytes)
    ensures |h| > |ContentLengthKey| + 5
  {
    ContentLengthKey + [Space] + Ascii(Decimal(n)) + [CR, LF, CR, LF]
  }

  /** A framed message: the header and then the body. */
  function Frame(data: Bytes): Bytes
  {
    Header(|data|) + data
  }

  /** No byte of `x` is a newline. */
  predicate NoNewline(x: Bytes) { forall i :: 0 <= i < |x| ==> x[i] != LF }

  /**
   * `bufio.Reader.ReadString('\n')`: the bytes up to and including the first newline, and what
   * follows; without a newline the read fails and everything left is consumed.
   */
  function ReadLine(s: Bytes): (r: Option<(Bytes, Bytes)>)
    ensures r.None? <==> NoNewline(s)
    ensures r.Some? ==> r.value.0 + r.value.1 == s && |r.value.0| > 0
    ensures r.Some? ==> r.value.0[|r.value.0| - 1] == LF && NoNewline(r.value.0[..|r.value.0| - 1])
  {
    if |s| == 0 then None
    else if s[0] == LF then Some(([LF], s[1..]))
    else match ReadLine(s[1..])
      case None => None
      case Some((line, rest)) =>
        assert ([s[0]] + line)[..|line|] == [s[0]] + line[..|line| - 1];
        Some(([s[0]] + line, rest))
  }

  lemma {:induction false} ReadLineOf(x: Bytes, y: Bytes)
    requires NoNewline(x)
    ensures ReadLine(x + [LF] + y) == Some((x + [LF], y))
  {
    if |x| > 0 {
      assert (x + [LF] + y)[1..] == x[1..] + [LF] + y;
      ReadLineOf(x[1..], y);
      assert [x[0]] + (x[1..] + [LF]) == x + [LF];
    } else {
      assert x + [LF] + y == [LF] + y;
    }
  }

  /** Why reading a framed message failed. */
  datatype FrameError =
    | HeaderReadFailed                // the stream ended inside the header block
    | InvalidContentLength(value: Bytes)
    | MissingContentLength            // no Content-Length header, or a length of zero
    | NegativeContentLength(n: int)   // see the corrected `ParseHeaders`
    | BodyReadFailed                  // the stream ended inside the body

  /**
   * The header loop of `readHeaders` as written: lines are read up to a blank line; a
   * "Content-Length:" line sets the length (a later one wins) and one that `strconv.Atoi`
   * rejects is an error; a length of zero at the end is reported as missing. Returns the result
   * and the bytes left unread.
   */
  function ScanHeaders(s: Bytes, contentLen: int): (r: (Result<int, FrameError>, Bytes))
    ensures |r.1| <= |s|
    ensures r.0.Success? ==> |r.1| < |s| && r.0.value != 0
    decreases |s|
  {
    match ReadLine(s)
    case None => (Failure(HeaderReadFailed), [])
    case Some((line, rest)) =>
      var trimmed := TrimSpace(line);
      if trimmed == [] then
        (if contentLen == 0 then Failure(MissingContentLength) else Success(contentLen), rest)
      else
        match CutPrefix(trimmed, ContentLengthKey)
        case None => ScanHeaders(rest, contentLen)
        case Some(v) =>
          var val := TrimSpace(v);
          match Atoi(val)
          case None => (Failure(InvalidContentLength(val)), rest)
          case Some(n) => ScanHeaders(rest, n)
  }

  /** `readHeaders` exactly as written: the length can come back negative. */
  function ParseHeadersAsWritten(s: Bytes): (r: (Result<int, FrameError>, Bytes))
    ensures r.0.Success? ==> r.0.value != 0 && |r.1| < |s|
    ensures |r.1| <= |s|
  {
    ScanHeaders(s, 0)
  }

  /**
   * `readHeaders` with the evidently intended check: a negative length is rejected like a
   * malformed one instead of reaching `make([]byte, n)`, which panics on it.
   */
  function ParseHeaders(s: Bytes): (r: (Result<nat, FrameError>, Bytes))
    ensures r.0.Success? ==> r.0.value > 0 && |r.1| < |s|
    ensures |r.1| <= |s|
    ensures ParseHeadersAsWritten(s).0.Success? && ParseHeadersAsWritten(s).0.value > 0 ==>
      r == (Success(ParseHeadersAsWritten(s).0.value), ParseHeadersAsWritten(s).1)
    ensures ParseHeadersAsWritten(s).0.Success? && ParseHeadersAsWritten(s).0.value < 0 ==>
      r == (Failure(NegativeContentLength(ParseHeadersAsWritten(s).0.value)), ParseHeadersAsWritten(s).1)
    ensures ParseHeadersAsWritten(s).0.Failure? ==> r == (Failure(ParseHeadersAsWritten(s).0.error), ParseHeadersAsWritten(s).1)
  {
    var (res, rest) := ParseHeadersAsWritten(s);
    match res
    case Failure(e) => (Failure(e), rest)
    case Success(n) => if n < 0 then (Failure(NegativeContentLength(n)), rest) else (Success(n), rest)
  }

  /**
   * `ReadMessage`'s framing: the header block, then exactly `Content-Length` bytes of body. A
   * length too large for `make` to allocate is treated as a short body here.
   */
  function ParseFrame(s: Bytes): (r: (Result<Bytes, FrameError>, Bytes))
    ensures r.0.Success? ==> |r.0.value| > 0 && |r.1| < |s|
    ensures |r.1| <= |s|
  {
    var (res, rest) := ParseHeaders(s);
    match res
    case Failure(e) => (Failure(e), rest)
    case Success(n) => if |rest| < n then (Failure(BodyReadFailed), []) else (Success(rest[..n]), rest[n..])
  }

  lemma LengthLineRead(digits: Bytes, tail: Bytes)
    requires NoNewline(digits)
    ensures ReadLine(ContentLengthKey + [Space] + digits + [CR, LF] + tail)
      == Some((ContentLengthKey + [Space] + digits + [CR, LF], tail))
  {
    var first := ContentLengthKey + [Space] + digits + [CR];
    assert NoNewline(first);
    ReadLineOf(first, tail);
    assert first + [LF] == ContentLengthKey + [Space] + digits + [CR, LF];
  }

  lemma LengthLineTrim(digits: Bytes)
    requires |digits| > 0 && !IsSpace(digits[|digits| - 1])
    ensures TrimSpace(ContentLengthKey + [Space] + digits + [CR, LF]) == ContentLengthKey + [Space] + digits
    ensures CutPrefix(ContentLengthKey + [Space] + digits, ContentLengthKey) == Some([Space] + digits)
  {
    var mid := ContentLengthKey + [Space] + digits;
    assert mid[|mid| - 1] == digits[|digits| - 1];
    TrimSpaceOf([], mid, [CR, LF]);
    assert [] + mid + [CR, LF] == mid + [CR, LF];
    assert mid[..|ContentLengthKey|] == ContentLengthKey;
    assert mid[|ContentLengthKey|..] == [Space] + digits;
  }

  /** The blank line that ends the header block. */
  lemma BlankLine(tail: Bytes)
    ensures ReadLine([CR, LF] + tail) == Some(([CR, LF], tail))
    ensures TrimSpace([CR, LF]) == []
  {
    ReadLineOf([CR], tail);
    assert [CR] + [LF] + tail == [CR, LF] + tail;
    TrimSpaceOf([CR, LF], [], []);
    assert [CR, LF] + [] + [] == [CR, LF];
  }

  /**
   * A header block holding one "Content-Length: <value>" line and the blank line is read as the
   * number `value` spells, with zero reported as missing.
   */
  lemma ScanSingleHeader(value: Bytes, n: int, rest: Bytes)
    requires NoNewline(value) && |value| > 0 && !IsSpace(value[|value| - 1])
    requires Atoi(TrimSpace([Space] + value)) == Some(n)
    ensures ScanHeaders(ContentLengthKey + [Space] + value + [CR, LF, CR, LF] + rest, 0)
      == (if n == 0 then Failure(MissingContentLength) else Success(n), rest)
  {
    HeaderBlockSplit(value, rest);
    ScanLengthLine(value, n, [CR, LF] + rest);
    ScanBlankLine(rest, n);
  }

  lemma HeaderBlockSplit(value: Bytes, rest: Bytes)
    ensures ContentLengthKey + [Space] + value + [CR, LF, CR, LF] + rest
      == (ContentLengthKey + [Space] + value + [CR, LF]) + ([CR, LF] + rest)
  {
  }

  /** The "Content-Length" line sets the length and scanning goes on after it. */
  lemma ScanLengthLine(value: Bytes, n: int, tail: Bytes)
    requires NoNewline(value) && |value| > 0 && !IsSpace(value[|value| - 1])
    requires Atoi(TrimSpace([Space] + value)) == Some(n)
    ensures ScanHeaders((ContentLengthKey + [Space] + value + [CR, LF]) + tail, 0) == ScanHeaders(tail, n)
  {
    LengthLineRead(value, tail);
    LengthLineTrim(value);
  }

  /** The blank line ends the scan with the length seen so far. */
  lemma ScanBlankLine(rest: Bytes, n: int)
    ensures ScanHeaders([CR, LF] + rest, n) == (if n == 0 then Failure(MissingContentLength) else Success(n), rest)
  {
    BlankLine(rest);
  }

  /** The digits `Header` writes for `n` are one line, end in a digit and read back as `n`. */
  lemma LengthValue(n: int)
    requires MinInt64 <= n <= MaxInt64
    ensures NoNewline(Ascii(Decimal(n))) && !IsSpace(Ascii(Decimal(n))[|Decimal(n)| - 1])
    ensures Atoi(TrimSpace([Space] + Ascii(Decimal(n)))) == Some(n)
  {
    DecimalOneLine(n);
    SpaceThenValue(Ascii(Decimal(n)));
    AtoiOfDecimal(n);
  }

  /** The bytes of a decimal number hold no newline and end in a digit. */
  lemma DecimalOneLine(n: int)
    ensures NoNewline(Ascii(Decimal(n))) && !IsSpace(Ascii(Decimal(n))[|Decimal(n)| - 1])
  {
    var v := Ascii(Decimal(n));
    var d := Decimal(n);
    forall i | 0 <= i < |v| ensures v[i] != LF {
      assert v[i] == (d[i] as int % 256) as byte;
    }
    assert v[|v| - 1] == (d[|d| - 1] as int % 256) as byte;
  }

  /** The space `Header` writes before the value is trimmed away. */
  lemma SpaceThenValue(v: Bytes)
    requires |v| > 0 && !IsSpace(v[0]) && !IsSpace(v[|v| - 1])
    ensures TrimSpace([Space] + v) == v
  {
    TrimSpaceOf([Space], v, []);
    assert [Space] + v + [] == [Space] + v;
  }

  /** Any negative "Content-Length" is accepted as written and comes back as that length. */
  lemma NegativeLengthAccepted(n: int, rest: Bytes)
    requires MinInt64 <= n < 0
    ensures ParseHeadersAsWritten(ContentLengthKey + [Space] + Ascii(Decimal(n)) + [CR, LF, CR, LF] + rest) == (Success(n), rest)
    ensures ParseHeaders(ContentLengthKey + [Space] + Ascii(Decimal(n)) + [CR, LF, CR, LF] + rest) == (Failure(NegativeContentLength(n)), rest)
  {
    LengthValue(n);
    ScanSingleHeader(Ascii(Decimal(n)), n, rest);
  }

  /** The header `WriteMessage` writes is parsed back to the body length, leaving the body. */
  lemma ParseHeaderOfFrame(data: Bytes, rest: Bytes)
    requires 0 < |data| <= MaxInt64
    ensures ParseHeaders(Frame(data) + rest) == (Success(|data|), data + rest)
  {
    var n := |data|;
    LengthValue(n);
    assert Frame(data) + rest == ContentLengthKey + [Space] + Ascii(Decimal(n)) + [CR, LF, CR, LF] + (data + rest);
    ScanSingleHeader(Ascii(Decimal(n)), n, data + rest);
  }

  /** Framing round trip: a frame `WriteMessage` writes reads back as the same body. */
  lemma ParseFrameOfFrame(data: Bytes, rest: Bytes)
    requires 0 < |data| <= MaxInt64
    ensures ParseFrame(Frame(data) + rest) == (Success(data), rest)
  {
    ParseHeaderOfFrame(data, rest);
    assert (data + rest)[..|data|] == data && (data + rest)[|data|..] == rest;
  }

  /** An empty body cannot be framed: its header reads back as a missing Content-Length. */
  lemma EmptyBodyIsMissingLength(rest: Bytes)
    ensures ParseFrame(Frame([]) + rest) == (Failure(MissingContentLength), rest)
  {
    LengthValue(0);
    assert Frame([]) + rest == ContentLengthKey + [Space] + Ascii(Decimal(0)) + [CR, LF, CR, LF] + rest;
    ScanSingleHeader(Ascii(Decimal(0)), 0, rest);
  }

  // ---------------------------------------------------------------------------------------
  // Messages on the stream
  // ---------------------------------------------------------------------------------------

  /** Why `ReadMessage` failed: the framing, or the decoding of the body. */
  datatype ReadError = Framing(frame: FrameError) | Decoding(decode: DecodeError)

  /**
   * The JSON codec the connection relies on, as functions: `json.Unmarshal` of a body into the
   * envelope, `json.Marshal` of a message, and the `id` member of `$/cancelRequest` params
   * (`None` when those params do not decode; a missing `id` decodes as the zero ID).
   */
  datatype Codec = Codec(
    parse: Bytes -> Result<Envelope, string>,
    marshal: Message -> Result<Bytes, string>,
    cancelId: Json -> Option<Id>)

  /**
   * What the connection assumes of `encoding/json`: a marshalled message is a non-empty text that
   * fits a Go `int` and parses back to the message's members.
   */
  ghost predicate Faithful(codec: Codec)
  {
    forall m: Message :: codec.marshal(m).Success? ==>
      0 < |codec.marshal(m).value| <= MaxInt64 && codec.parse(codec.marshal(m).value) == Success(Members(m))
  }

  /** `ReadMessage`: a frame, then the decoded body; returns the message and the bytes left. */
  function ParseMessage(codec: Codec, s: Bytes): (r: (Result<Message, ReadError>, Bytes))
    ensures r.0.Success? ==> (|r.1| < |s| && ParseFrame(s).0.Success?
      && DecodeMessage(codec.parse(ParseFrame(s).0.value)) == Success(r.0.value))
    ensures ParseFrame(s).0.Failure? ==> r == (Failure(Framing(ParseFrame(s).0.error)), ParseFrame(s).1)
    ensures r.1 == ParseFrame(s).1
  {
    var (body, rest) := ParseFrame(s);
    match body
    case Failure(e) => (Failure(Framing(e)), rest)
    case Success(b) =>
      match DecodeMessage(codec.parse(b))
      case Failure(e) => (Failure(Decoding(e)), rest)
      case Success(m) => (Success(m), rest)
  }

  /** A message `WriteMessage` writes reads back as the same message, unless its ID is the zero ID. */
  lemma ReadOfWritten(codec: Codec, m: Message, rest: Bytes)
    requires Faithful(codec) && codec.marshal(m).Success? && !HasZeroId(m)
    ensures ParseMessage(codec, Frame(codec.marshal(m).value) + rest) == (Success(m), rest)
  {
    ParseFrameOfFrame(codec.marshal(m).value, rest);
    DecodeMembers(m);
  }

  /** The messages `Serve` reads from `s` in order, and the error that ends the stream. */
  function ReadAll(codec: Codec, s: Bytes): (r: (seq<Message>, ReadError))
    decreases |s|
  {
    match ParseMessage(codec, s)
    case (Failure(e), _) => ([], e)
    case (Success(m), rest) =>
      var (ms, e) := ReadAll(codec, rest);
      ([m] + ms, e)
  }

  lemma ReadAllStep(codec: Codec, s: Bytes)
    ensures ParseMessage(codec, s).0.Failure? ==> ReadAll(codec, s) == ([], ParseMessage(codec, s).0.error)
    ensures ParseMessage(codec, s).0.Success? ==>
      var rest := ParseMessage(codec, s).1;
      ReadAll(codec, s) == ([ParseMessage(codec, s).0.value] + ReadAll(codec, rest).0, ReadAll(codec, rest).1)
  {
  }

  /** The frames of `ms` written one after another. */
  function Framed(codec: Codec, ms: seq<Message>): (w: Bytes)
    requires forall i :: 0 <= i < |ms| ==> codec.marshal(ms[i]).Success?
  {
    if ms == [] then [] else Frame(codec.marshal(ms[0]).value) + Framed(codec, ms[1..])
  }

  /** Frames written back to back are read back as the same messages, in order. */
  lemma {:induction false} ReadAllOfWritten(codec: Codec, ms: seq<Message>, tail: Bytes)
    requires Faithful(codec)
    requires forall i :: 0 <= i < |ms| ==> codec.marshal(ms[i]).Success? && !HasZeroId(ms[i])
    ensures ReadAll(codec, Framed(codec, ms) + tail) == (ms + ReadAll(codec, tail).0, ReadAll(codec, tail).1)
  {
    if ms != [] {
      var rest := Framed(codec, ms[1..]) + tail;
      var s := Framed(codec, ms) + tail;
      assert s == Frame(codec.marshal(ms[0]).value) + rest;
      assert ParseMessage(codec, s) == (Success(ms[0]), rest) by {
        ReadOfWritten(codec, ms[0], rest);
      }
      var (more, e) := ReadAll(codec, rest);
      assert ReadAll(codec, s) == ([ms[0]] + more, e);
      ReadAllOfWritten(codec, ms[1..], tail);
      var later := ReadAll(codec, tail).0;
      assert more == ms[1..] + later;
      ConsAppend(ms, later);
    } else {
      assert Framed(codec, ms) + tail == tail;
      assert ms + ReadAll(codec, tail).0 == ReadAll(codec, tail).0;
    }
  }

  lemma ConsAppend<T>(a: seq<T>, b: seq<T>)
    requires a != []
    ensures [a[0]] + (a[1..] + b) == a + b
  {
    assert a == [a[0]] + a[1..];
  }

  /** How the writer fails, if it does: on the header, or on the body after the header. */
  datatype WriteFault = NoFault | HeaderFault | BodyFault

  datatype WriteError = MarshalFailed(text: string) | WriteFailed

  /** The bytes `WriteMessage` puts on the stream. */
  function Emitted(codec: Codec, m: Message, fault: WriteFault): (w: Bytes)
    ensures codec.marshal(m).Success? && fault == NoFault ==> w == Frame(codec.marshal(m).value)
    ensures codec.marshal(m).Success? && fault == BodyFault ==> w == Header(|codec.marshal(m).value|)
    ensures codec.marshal(m).Failure? || fault == HeaderFault ==> w == []
  {
    match codec.marshal(m)
    case Failure(_) => []
    case Success(data) =>
      match fault
      case NoFault => Frame(data)
      case HeaderFault => []
      case BodyFault => Header(|data|)
  }

  /** The error `WriteMessage` returns. */
  function WriteResult(codec: Codec, m: Message, fault: WriteFault): (err: Option<WriteError>)
    ensures err.None? <==> codec.marshal(m).Success? && fault == NoFault
    ensures codec.marshal(m).Failure? ==> err == Some(MarshalFailed(codec.marshal(m).error))
  {
    match codec.marshal(m)
    case Failure(e) => Some(MarshalFailed(e))
    case Success(_) => if fault == NoFault then None else Some(WriteFailed)
  }

  // ---------------------------------------------------------------------------------------
  // Call IDs
  // ---------------------------------------------------------------------------------------

  /** `atomic.Int64.Add(1)`: two's-complement wrap-around at the top of the range. */
  function Inc64(x: int64): (y: int64)
    ensures x as int < MaxInt64 ==> y as int == x as int + 1
    ensures x as int == MaxInt64 ==> y as int == MinInt64
  {
    if x as int == MaxInt64 then MinInt64 as int64 else x + 1
  }

  /** The counter after `k` increments from `x`. */
  function Bumped(x: int64, k: nat): int64
  {
    if k == 0 then x else Inc64(Bumped(x, k - 1))
  }

  /** From a fresh connection the k-th call gets ID k, so calls get 1, 2, 3, ... */
  lemma {:induction false} CallIdsCount(k: nat)
    requires k <= MaxInt64
    ensures Bumped(0, k) as int == k
  {
    if k > 0 {
      CallIdsCount(k - 1);
    }
  }

  /** Distinct calls of a fresh connection (fewer than 2^63 of them) use distinct pending keys. */
  lemma CallKeysDistinct(i: nat, j: nat)
    requires 0 < i < j <= MaxInt64
    ensures IdString(IntId(Bumped(0, i))) != IdString(IntId(Bumped(0, j)))
  {
    CallIdsCount(i);
    CallIdsCount(j);
    if IdString(IntId(Bumped(0, i))) == IdString(IntId(Bumped(0, j))) {
      IntIdStringInjective(Bumped(0, i), Bumped(0, j));
    }
  }

  // ---------------------------------------------------------------------------------------
  // The connection
  // ---------------------------------------------------------------------------------------

  /** The notification the peer sends to cancel one of its requests. */
  const CancelRequestMethod: string := "$/cancelRequest"

  /** How `Call` starts: the request went out under `id`, or it was not sent. */
  datatype CallStart = Sent(id: Id) | NotSent(err: WriteError)

  /** One wake-up of `Call`'s `select`: the response arrived, the context ended, or neither yet. */
  datatype Awaited = Answered(resp: Response) | ContextDone | Waiting

  /**
   * What `routeResponse` does with a response: nobody waits for its ID, it is handed over, or the
   * caller's one-slot channel is already full, where the source blocks the read loop.
   */
  datatype Routed = NoCaller | Handed | CallerBusy

  /** Why `Serve` returned: its context ended, or reading failed. */
  datatype ServeExit = Stopped | ReadFailed(error: ReadError)

  /**
   * The part of a connection that `Serve`'s loop changes: the requests whose `handleRequest`
   * goroutine was started but has not yet registered its cancel entry, the cancelled contexts,
   * the pending calls and the notifications handed to the dispatcher.
   */
  datatype ServeTables = ServeTables(
    spawned: seq<Request>,
    cancelled: set<nat>,
    pending: map<string, Option<Response>>,
    dispatched: seq<Notification>)

  /** `handleCancel`'s effect: the context registered under the decoded ID key, if any, is cancelled. */
  function CancelledBy(cancelled: set<nat>, cancels: map<string, nat>, target: Option<Id>): set<nat>
  {
    if target.Some? && IdString(target.value) in cancels then cancelled + {cancels[IdString(target.value)]}
    else cancelled
  }

  /** `routeResponse`'s effect: the response fills the empty slot of a caller waiting on its ID key. */
  function RoutedTo(pending: map<string, Option<Response>>, resp: Response): map<string, Option<Response>>
  {
    var key := IdString(resp.id);
    if key in pending && pending[key].None? then pending[key := Some(resp)] else pending
  }

  /**
   * One case of `Serve`'s `switch`: a request starts its goroutine, `$/cancelRequest` cancels, any
   * other notification goes to the dispatcher, and a response is routed.
   */
  function DispatchStep(t: ServeTables, m: Message, cancels: map<string, nat>, codec: Codec): ServeTables
  {
    match m
    case Req(r) => t.(spawned := t.spawned + [r])
    case Notif(n) =>
      if n.methodName == CancelRequestMethod then t.(cancelled := CancelledBy(t.cancelled, cancels, codec.cancelId(n.params)))
      else t.(dispatched := t.dispatched + [n])
    case Resp(r) => t.(pending := RoutedTo(t.pending, r))
  }

  /** The tables after dispatching `ms` in order. */
  function DispatchAll(t: ServeTables, ms: seq<Message>, cancels: map<string, nat>, codec: Codec): ServeTables
    decreases |ms|
  {
    if ms == [] then t else DispatchStep(DispatchAll(t, ms[..|ms| - 1], cancels, codec), ms[|ms| - 1], cancels, codec)
  }

  /** Dispatching one more message is one more step. */
  lemma DispatchAllSnoc(t: ServeTables, ms: seq<Message>, m: Message, cancels: map<string, nat>, codec: Codec)
    ensures DispatchAll(t, ms + [m], cancels, codec) == DispatchStep(DispatchAll(t, ms, cancels, codec), m, cancels, codec)
  {
    assert (ms + [m])[..|ms + [m]| - 1] == ms;
  }

  /** `DispatchAllSnoc` for the messages after the first `k`. */
  lemma DispatchAllSnocFrom(t: ServeTables, ms: seq<Message>, k: nat, m: Message, cancels: map<string, nat>, codec: Codec)
    requires k <= |ms|
    ensures DispatchAll(t, (ms + [m])[k..], cancels, codec) == DispatchStep(DispatchAll(t, ms[k..], cancels, codec), m, cancels, codec)
  {
    assert (ms + [m])[k..] == ms[k..] + [m];
    DispatchAllSnoc(t, ms[k..], m, cancels, codec);
  }

  /** The requests among `ms`, in order. */
  function RequestsOf(ms: seq<Message>): (rs: seq<Request>)
    ensures |rs| <= |ms|
    decreases |ms|
  {
    if ms == [] then [] else RequestsOf(ms[..|ms| - 1]) + (if ms[|ms| - 1].Req? then [ms[|ms| - 1].req] else [])
  }

  /** The responses among `ms`, in order. */
  function ResponsesOf(ms: seq<Message>): (rs: seq<Response>)
    ensures |rs| <= |ms|
    decreases |ms|
  {
    if ms == [] then [] else ResponsesOf(ms[..|ms| - 1]) + (if ms[|ms| - 1].Resp? then [ms[|ms| - 1].resp] else [])
  }

  /**
   * Across the read loop the requests' goroutines are started in the order the requests arrive,
   * only contexts registered before the loop can be cancelled, and the pending table keeps its
   * keys: routing fills slots but never adds or removes a call.
   */
  lemma {:induction false} DispatchAllEffects(t: ServeTables, ms: seq<Message>, cancels: map<string, nat>, codec: Codec)
    ensures DispatchAll(t, ms, cancels, codec).spawned == t.spawned + RequestsOf(ms)
    ensures t.cancelled <= DispatchAll(t, ms, cancels, codec).cancelled <= t.cancelled + cancels.Values
    ensures DispatchAll(t, ms, cancels, codec).pending.Keys == t.pending.Keys
    ensures ResponsesOf(ms) == [] ==> DispatchAll(t, ms, cancels, codec).pending == t.pending
  {
    if ms != [] {
      var init := ms[..|ms| - 1];
      var last := ms[|ms| - 1];
      DispatchAllEffects(t, init, cancels, codec);
      var before := DispatchAll(t, init, cancels, codec);
      assert DispatchAll(t, ms, cancels, codec) == DispatchStep(before, last, cancels, codec);
      DispatchStepEffects(before, last, cancels, codec);
      SeqAssoc(t.spawned, RequestsOf(init), if last.Req? then [last.req] else []);
      if ResponsesOf(ms) == [] {
        assert ResponsesOf(init) == [];
      }
    }
  }

  /** One step of `DispatchAllEffects`. */
  lemma DispatchStepEffects(t: ServeTables, m: Message, cancels: map<string, nat>, codec: Codec)
    ensures DispatchStep(t, m, cancels, codec).spawned == t.spawned + (if m.Req? then [m.req] else [])
    ensures t.cancelled <= DispatchStep(t, m, cancels, codec).cancelled <= t.cancelled + cancels.Values
    ensures DispatchStep(t, m, cancels, codec).pending.Keys == t.pending.Keys
    ensures !m.Resp? ==> DispatchStep(t, m, cancels, codec).pending == t.pending
  {
    if m.Notif? && m.notif.methodName == CancelRequestMethod {
      var target := codec.cancelId(m.notif.params);
      if target.Some? && IdString(target.value) in cancels {
        assert cancels[IdString(target.value)] in cancels.Values;
      }
    }
  }

  /**
   * A request's cancel entry is registered by its goroutine, not by the read loop: a
   * `$/cancelRequest` read right after the request, before the goroutine runs, cancels nothing.
   */
  lemma CancelBeforeRegistrationIsLost(t: ServeTables, req: Request, n: Notification, cancels: map<string, nat>, codec: Codec)
    requires n.methodName == CancelRequestMethod && codec.cancelId(n.params) == Some(req.id)
    requires IdString(req.id) !in cancels
    ensures DispatchAll(t, [Req(req), Notif(n)], cancels, codec).cancelled == t.cancelled
    ensures DispatchAll(t, [Req(req), Notif(n)], cancels, codec).spawned == t.spawned + [req]
  {
    DispatchAllSnoc(t, [], Req(req), cancels, codec);
    assert [] + [Req(req)] == [Req(req)];
    DispatchAllSnoc(t, [Req(req)], Notif(n), cancels, codec);
    assert [Req(req)] + [Notif(n)] == [Req(req), Notif(n)];
  }

  /**
   * `Conn`. The reader is the bytes not yet read, the writer the bytes written so far. A request
   * being served owns a context handle; `cancelled` holds the handles whose context was cancelled
   * and `inflight` the requests begun but not completed. `spawned` holds the requests whose
   * `handleRequest` goroutine was started and has not yet run. `pending` holds, per call key, the
   * one-slot response channel (`None` while empty).
   */
  class Conn {
    var input: Bytes
    var output: Bytes
    const dispatcher: Dispatcher
    const codec: Codec
    var spawned: seq<Request>
    var cancels: map<string, nat>
    var cancelled: set<nat>
    var inflight: map<nat, Request>
    var nextContext: nat
    var nextID: int64
    var pending: map<string, Option<Response>>
    /** The messages `Serve` has read, in order. */
    ghost var received: seq<Message>
    /** The notifications handed to the dispatcher, in order. */
    ghost var dispatched: seq<Notification>

    /**
     * Every cancel entry belongs to a request still being served, under that request's ID key,
     * and context handles are never reused.
     */
    ghost predicate Valid()
      reads this
    {
      && (forall k :: k in cancels ==> cancels[k] in inflight && IdString(inflight[cancels[k]].id) == k)
      && (forall h :: h in inflight ==> h < nextContext)
      && (forall h :: h in cancelled ==> h < nextContext)
    }

    /** The tables `Serve`'s loop changes. */
    ghost function Tables(): ServeTables
      reads this
    {
      ServeTables(spawned, cancelled, pending, dispatched)
    }

    /** Nothing but the reader and the writer changed. */
    twostate predicate TablesUnchanged()
      reads this
    {
      && cancels == old(cancels) && cancelled == old(cancelled) && inflight == old(inflight)
      && nextContext == old(nextContext) && nextID == old(nextID) && pending == old(pending)
      && received == old(received) && dispatched == old(dispatched) && spawned == old(spawned)
    }

    /** `NewConn`: empty tables and a call counter at zero. */
    constructor (stream: Bytes, dispatcher: Dispatcher, codec: Codec)
      ensures input == stream && output == []
      ensures this.dispatcher == dispatcher && this.codec == codec
      ensures cancels == map[] && cancelled == {} && inflight == map[] && nextContext == 0
      ensures nextID == 0 && pending == map[]
      ensures received == [] && dispatched == [] && spawned == []
      ensures Valid()
    {
      input := stream;
      output := [];
      this.dispatcher := dispatcher;
      this.codec := codec;
      cancels := map[];
      cancelled := {};
      inflight := map[];
      nextContext := 0;
      nextID := 0;
      pending := map[];
      received := [];
      dispatched := [];
      spawned := [];
    }

    /**
     * `readHeaders`: header lines up to the blank line, the last Content-Length winning, with the
     * negative-length check `ParseHeaders` adds.
     */
    method ReadHeaders() returns (r: Result<nat, FrameError>)
      modifies this
      ensures (r, input) == ParseHeaders(old(input))
      ensures output == old(output) && TablesUnchanged()
    {
      var contentLen: int := 0;
      while true
        invariant ScanHeaders(old(input), 0) == ScanHeaders(input, contentLen)
        invariant output == old(output) && TablesUnchanged()
        decreases |input|
      {
        var next := ReadLine(input);
        if next.None? {
          input := [];
          return Failure(HeaderReadFailed);
        }
        var line := next.value.0;
        input := next.value.1;
        var trimmed := TrimSpace(line);
        if trimmed == [] {
          break;
        }
        var cut := CutPrefix(trimmed, ContentLengthKey);
        if cut.Some? {
          var val := TrimSpace(cut.value);
          var n := Atoi(val);
          if n.None? {
            return Failure(InvalidContentLength(val));
          }
          contentLen := n.value;
        }
      }
      if contentLen == 0 {
        return Failure(MissingContentLength);
      }
      if contentLen < 0 {
        return Failure(NegativeContentLength(contentLen));
      }
      return Success(contentLen);
    }

    /** `ReadMessage`: the headers, exactly Content-Length bytes of body, then `DecodeMessage`. */
    method ReadMessage() returns (r: Result<Message, ReadError>)
      modifies this
      ensures (r, input) == ParseMessage(codec, old(input))
      ensures output == old(output) && TablesUnchanged()
    {
      var len := ReadHeaders();
      if len.Failure? {
        return Failure(Framing(len.error));
      }
      var n := len.value;
      if |input| < n {
        input := [];
        return Failure(Framing(BodyReadFailed));
      }
      var body := input[..n];
      input := input[n..];
      var decoded := DecodeMessage(codec.parse(body));
      if decoded.Failure? {
        return Failure(Decoding(decoded.error));
      }
      return Success(decoded.value);
    }

    /** `WriteMessage`: marshal, then the header and the body. */
    method WriteMessage(m: Message, fault: WriteFault) returns (err: Option<WriteError>)
      modifies this
      ensures err == WriteResult(codec, m, fault)
      ensures output == old(output) + Emitted(codec, m, fault)
      ensures input == old(input) && TablesUnchanged()
    {
      var data := codec.marshal(m);
      if data.Failure? {
        return Some(MarshalFailed(data.error));
      }
      if fault == HeaderFault {
        return Some(WriteFailed);
      }
      output := output + Header(|data.value|);
      if fault == BodyFault {
        return Some(WriteFailed);
      }
      output := output + data.value;
      assert output == old(output) + Frame(data.value);
      return None;
    }

    /**
     * The start of `handleRequest`, run by the goroutine of the `i`-th spawned request, in
     * whatever order the scheduler picks: a fresh context for the request, registered for
     * cancellation under the request's ID key, replacing any entry of another request with that key.
     */
    method BeginRequest(i: nat) returns (h: nat)
      requires Valid() && i < |spawned|
      modifies this
      ensures Valid()
      ensures spawned == old(spawned[..i] + spawned[i + 1..])
      ensures h == old(nextContext) && nextContext == h + 1 && h !in old(inflight) && h !in cancelled
      ensures inflight == old(inflight)[h := old(spawned)[i]]
      ensures cancels == old(cancels)[IdString(old(spawned)[i].id) := h]
      ensures cancelled == old(cancelled) && pending == old(pending) && nextID == old(nextID)
      ensures input == old(input) && output == old(output)
      ensures received == old(received) && dispatched == old(dispatched)
    {
      var req := spawned[i];
      spawned := spawned[..i] + spawned[i + 1..];
      h := nextContext;
      nextContext := nextContext + 1;
      inflight := inflight[h := req];
      cancels := cancels[IdString(req.id) := h];
    }

    /**
     * The rest of `handleRequest`: the dispatcher answers under the request's context, the
     * answer is written (a write error is ignored), the context is cancelled and the cancel
     * entry for the ID key is deleted.
     */
    method CompleteRequest(h: nat, fault: WriteFault) returns (resp: Response)
      requires Valid() && h in inflight
      modifies this
      ensures Valid()
      ensures resp == dispatcher.HandleRequest(Context(h in old(cancelled)), old(inflight)[h])
      ensures output == old(output) + Emitted(codec, Resp(resp), fault)
      ensures cancelled == old(cancelled) + {h}
      ensures cancels == old(cancels) - {IdString(old(inflight)[h].id)}
      ensures inflight == old(inflight) - {h}
      ensures pending == old(pending) && nextID == old(nextID) && nextContext == old(nextContext)
      ensures input == old(input) && received == old(received) && dispatched == old(dispatched) && spawned == old(spawned)
    {
      var req := inflight[h];
      resp := dispatcher.HandleRequest(Context(h in cancelled), req);
      var _ := WriteMessage(Resp(resp), fault);
      cancelled := cancelled + {h};
      cancels := cancels - {IdString(req.id)};
      inflight := inflight - {h};
    }

    /**
     * `handleCancel`: params that do not decode are ignored; otherwise the context registered
     * under the ID key, if any, is cancelled.
     */
    method HandleCancel(n: Notification)
      requires Valid()
      modifies this
      ensures Valid()
      ensures var target := codec.cancelId(n.params);
        cancelled == if target.Some? && IdString(target.value) in old(cancels)
          then old(cancelled) + {old(cancels)[IdString(target.value)]}
          else old(cancelled)
      ensures cancels == old(cancels) && inflight == old(inflight) && nextContext == old(nextContext)
      ensures pending == old(pending) && nextID == old(nextID)
      ensures input == old(input) && output == old(output)
      ensures received == old(received) && dispatched == old(dispatched) && spawned == old(spawned)
    {
      var target := codec.cancelId(n.params);
      if target.Some? && IdString(target.value) in cancels {
        cancelled := cancelled + {cancels[IdString(target.value)]};
      }
    }

    /** `handleNotification`: `$/cancelRequest` is handled here and never reaches the dispatcher. */
    method HandleNotification(n: Notification)
      requires Valid()
      modifies this
      ensures Valid()
      ensures n.methodName == CancelRequestMethod ==>
        dispatched == old(dispatched) && cancelled == CancelledBy(old(cancelled), old(cancels), codec.cancelId(n.params))
      ensures n.methodName != CancelRequestMethod ==>
        dispatched == old(dispatched) + [n] && cancelled == old(cancelled)
      ensures cancels == old(cancels) && inflight == old(inflight) && nextContext == old(nextContext)
      ensures pending == old(pending) && nextID == old(nextID)
      ensures input == old(input) && output == old(output) && received == old(received) && spawned == old(spawned)
    {
      if n.methodName == CancelRequestMethod {
        HandleCancel(n);
        return;
      }
      var _ := dispatcher.HandleNotification(Context(false), n);
      dispatched := dispatched + [n];
    }

    /** `routeResponse`: only a response whose ID key a caller waits on is handed over. */
    method RouteResponse(resp: Response) returns (r: Routed)
      requires Valid()
      modifies this
      ensures Valid()
      ensures var key := IdString(resp.id);
        && (r == NoCaller <==> key !in old(pending))
        && (r == CallerBusy <==> key in old(pending) && old(pending)[key].Some?)
        && (r == Handed ==> pending == old(pending)[key := Some(resp)])
        && (r != Handed ==> pending == old(pending))
      ensures cancels == old(cancels) && cancelled == old(cancelled) && inflight == old(inflight)
      ensures nextContext == old(nextContext) && nextID == old(nextID)
      ensures input == old(input) && output == old(output)
      ensures received == old(received) && dispatched == old(dispatched) && spawned == old(spawned)
    {
      var key := IdString(resp.id);
      if key !in pending {
        return NoCaller;
      }
      if pending[key].Some? {
        return CallerBusy;
      }
      pending := pending[key := Some(resp)];
      return Handed;
    }

    /**
     * The sending half of `Call`: the counter is bumped first and its new value is the ID; the
     * pending entry is added before the write and removed again when the write fails.
     */
    method Call(methodName: string, params: Option<Value>, fault: WriteFault) returns (r: CallStart)
      requires Valid()
      modifies this
      ensures Valid()
      ensures nextID == Inc64(old(nextID))
      ensures var id := IntId(nextID);
        match NewRequest(id, methodName, params)
        case Failure(e) => r == NotSent(MarshalFailed(e)) && pending == old(pending) && output == old(output)
        case Success(req) =>
          && output == old(output) + Emitted(codec, Req(req), fault)
          && (WriteResult(codec, Req(req), fault).None? ==> r == Sent(id) && pending == old(pending)[IdString(id) := None])
          && (WriteResult(codec, Req(req), fault).Some? ==>
                r == NotSent(WriteResult(codec, Req(req), fault).value) && pending == old(pending) - {IdString(id)})
      ensures cancels == old(cancels) && cancelled == old(cancelled) && inflight == old(inflight)
      ensures nextContext == old(nextContext) && input == old(input)
      ensures received == old(received) && dispatched == old(dispatched) && spawned == old(spawned)
    {
      nextID := Inc64(nextID);
      var id := IntId(nextID);
      var req := NewRequest(id, methodName, params);
      if req.Failure? {
        return NotSent(MarshalFailed(req.error));
      }
      r := Send(req.value, fault);
    }

    /** The pending entry, then the write, and the entry removed again when the write fails. */
    method Send(req: Request, fault: WriteFault) returns (r: CallStart)
      requires Valid()
      modifies this
      ensures Valid()
      ensures output == old(output) + Emitted(codec, Req(req), fault)
      ensures WriteResult(codec, Req(req), fault).None? ==> r == Sent(req.id) && pending == old(pending)[IdString(req.id) := None]
      ensures WriteResult(codec, Req(req), fault).Some? ==>
        r == NotSent(WriteResult(codec, Req(req), fault).value) && pending == old(pending) - {IdString(req.id)}
      ensures cancels == old(cancels) && cancelled == old(cancelled) && inflight == old(inflight)
      ensures nextContext == old(nextContext) && nextID == old(nextID) && input == old(input)
      ensures received == old(received) && dispatched == old(dispatched) && spawned == old(spawned)
    {
      var key := IdString(req.id);
      pending := pending[key := None];
      var err := WriteMessage(Req(req), fault);
      if err.Some? {
        pending := pending - {key};
        return NotSent(err.value);
      }
      return Sent(req.id);
    }

    /**
     * The waiting half of `Call`: `select` takes the response when one is in the channel and the
     * context when it is done (`preferContext` decides when both are ready); either way the
     * pending entry is removed.
     */
    method AwaitCall(id: Id, ctxDone: bool, preferContext: bool) returns (r: Awaited)
      requires Valid()
      modifies this
      ensures Valid()
      ensures var key := IdString(id);
        var ready := key in old(pending) && old(pending)[key].Some?;
        && (ready && !(ctxDone && preferContext) ==> r == Answered(old(pending)[key].value))
        && (ctxDone && !(ready && !preferContext) ==> r == ContextDone)
        && (!ready && !ctxDone ==> r == Waiting)
        && (r == Waiting ==> pending == old(pending))
        && (r != Waiting ==> pending == old(pending) - {key})
      ensures cancels == old(cancels) && cancelled == old(cancelled) && inflight == old(inflight)
      ensures nextContext == old(nextContext) && nextID == old(nextID)
      ensures input == old(input) && output == old(output)
      ensures received == old(received) && dispatched == old(dispatched) && spawned == old(spawned)
    {
      var key := IdString(id);
      var ready := key in pending && pending[key].Some?;
      if ready && !(ctxDone && preferContext) {
        r := Answered(pending[key].value);
        pending := pending - {key};
      } else if ctxDone {
        r := ContextDone;
        pending := pending - {key};
      } else {
        r := Waiting;
      }
    }

    /** `Notify`: a notification is built and written; nothing waits for an answer. */
    method Notify(methodName: string, params: Option<Value>, fault: WriteFault) returns (err: Option<WriteError>)
      requires Valid()
      modifies this
      ensures Valid()
      ensures match NewNotification(methodName, params)
        case Failure(e) => err == Some(MarshalFailed(e)) && output == old(output)
        case Success(n) => err == WriteResult(codec, Notif(n), fault) && output == old(output) + Emitted(codec, Notif(n), fault)
      ensures input == old(input) && TablesUnchanged()
    {
      var notif := NewNotification(methodName, params);
      if notif.Failure? {
        return Some(MarshalFailed(notif.error));
      }
      err := WriteMessage(Notif(notif.value), fault);
    }

    /**
     * The `switch` of `Serve` on the kind of a message just read: a request starts its
     * goroutine, a notification is handled in line and a response is routed.
     */
    method Dispatch(m: Message)
      requires Valid()
      modifies this
      ensures Valid()
      ensures received == old(received) + [m]
      ensures Tables() == DispatchStep(old(Tables()), m, old(cancels), codec)
      ensures cancels == old(cancels) && inflight == old(inflight) && nextContext == old(nextContext)
      ensures nextID == old(nextID) && input == old(input) && output == old(output)
    {
      received := received + [m];
      match m
      case Req(req) =>
        spawned := spawned + [req];
      case Notif(n) =>
        HandleNotification(n);
      case Resp(resp) =>
        var _ := RouteResponse(resp);
    }

    /**
     * `Serve`: read and dispatch until reading fails or the context ends. The request goroutines
     * are started, not run: their steps are `BeginRequest` and `CompleteRequest`.
     * `ctxDone(2 * i)` is the context check before the i-th read and `ctxDone(2 * i + 1)` the one
     * after a failed read.
     */
    method Serve(ctxDone: nat -> bool) returns (exit: ServeExit)
      requires Valid()
      modifies this
      ensures Valid()
      ensures exit.ReadFailed? ==>
        received == old(received) + ReadAll(codec, old(input)).0 && exit.error == ReadAll(codec, old(input)).1
      ensures old(received) <= received <= old(received) + ReadAll(codec, old(input)).0
      ensures Tables() == DispatchAll(old(Tables()), received[|old(received)|..], old(cancels), codec)
      ensures cancels == old(cancels) && inflight == old(inflight) && nextContext == old(nextContext)
      ensures nextID == old(nextID) && output == old(output)
    {
      ghost var start, k := Tables(), |received|;
      var i: nat := 0;
      while true
        invariant Valid()
        invariant old(received) + ReadAll(codec, old(input)).0 == received + ReadAll(codec, input).0
        invariant ReadAll(codec, old(input)).1 == ReadAll(codec, input).1
        invariant old(received) <= received && k == |old(received)|
        invariant Tables() == DispatchAll(start, received[k..], cancels, codec)
        invariant cancels == old(cancels) && inflight == old(inflight) && nextContext == old(nextContext)
        invariant nextID == old(nextID) && output == old(output)
        decreases |input|
      {
        if ctxDone(2 * i) {
          return Stopped;
        }
        ghost var before := received;
        var failed := ServeOne();
        if failed.Some? {
          if ctxDone(2 * i + 1) {
            return Stopped;
          }
          return ReadFailed(failed.value);
        }
        ghost var m := received[|received| - 1];
        assert received == before + [m];
        DispatchAllSnocFrom(start, before, k, m, cancels, codec);
        i := i + 1;
      }
    }

    /** One round of `Serve`'s loop: read a message and dispatch it, or report the read error. */
    method ServeOne() returns (failed: Option<ReadError>)
      requires Valid()
      modifies this
      ensures Valid()
      ensures old(received) <= received
      ensures failed.Some? ==> (received == old(received) && ReadAll(codec, old(input)) == ([], failed.value)
        && Tables() == old(Tables()))
      ensures failed.None? ==> (|input| < |old(input)|
        && received + ReadAll(codec, input).0 == old(received) + ReadAll(codec, old(input)).0
        && ReadAll(codec, input).1 == ReadAll(codec, old(input)).1)
      ensures failed.None? ==> |received| == |old(received)| + 1 && var m := received[|received| - 1];
        received == old(received) + [m]
        && ParseMessage(codec, old(input)) == (Success(m), input)
        && Tables() == DispatchStep(old(Tables()), m, old(cancels), codec)
      ensures cancels == old(cancels) && inflight == old(inflight) && nextContext == old(nextContext)
      ensures nextID == old(nextID) && output == old(output)
    {
      ghost var before := input;
      ReadAllStep(codec, before);
      var msg := ReadMessage();
      if msg.Failure? {
        return Some(msg.error);
      }
      ghost var later := ReadAll(codec, input).0;
      Dispatch(msg.value);
      assert ReadAll(codec, before).0 == [msg.value] + later;
      SeqAssoc(old(received), [msg.value], later);
      return None;
    }
  }
}
