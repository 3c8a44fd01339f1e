/**
 * The debug tap (debugui/tap.go): a wrapper around the server's stream that passes every byte
 * through unchanged and sends a copy of each complete Content-Length frame's body to the store.
 */
module DebugTap {
  import opened Wrappers
  import opened Text
  import opened JsonRpcConn
  import opened DebugStore
  import opened DebugLogStore

  /** The blank line that ends a header block, "\r\n\r\n". */
  const Terminator: Bytes := [CR, LF, CR, LF]
  /** The header line separator, "\r\n". */
  const LineBreak: Bytes := [CR, LF]

  const ClientToServer: string := "client→server"
  const ServerToClient: string := "server→client"

  /** `FormatMessage`: the body behind its "Content-Length" header, as the connection frames it. */
  function FormatMessage(body: Bytes): (r: Bytes)
    ensures r == Frame(body)
    ensures |r| == |Header(|body|)| + |body| && r[|Header(|body|)|..] == body
  {
    ContentLengthKey + [Space] + Ascii(Decimal(|body|)) + Terminator + body
  }

  // ---------------------------------------------------------------------------------------------
  // parseContentLength
  // ---------------------------------------------------------------------------------------------

  /** What one header line says about the length. */
  datatype LineRead = OtherLine | LengthLine(n: int) | BadLength(value: Bytes)

  /**
   * A "Content-Length:" line gives the number after the prefix, spaces trimmed, or is bad when
   * `strconv.Atoi` rejects it; the line itself is not trimmed first.
   */
  function ReadLengthLine(line: Bytes): (r: LineRead)
    ensures r.OtherLine? <==> !HasPrefix(line, ContentLengthKey)
    ensures HasPrefix(line, ContentLengthKey) ==> var v := TrimSpace(line[|ContentLengthKey|..]);
      (r.LengthLine? <==> Atoi(v).Some?) && (r.LengthLine? ==> r.n == Atoi(v).value)
  {
    match CutPrefix(line, ContentLengthKey)
    case None => OtherLine
    case Some(v) =>
      match Atoi(TrimSpace(v))
      case None => BadLength(TrimSpace(v))
      case Some(n) => LengthLine(n)
  }

  /**
   * The loop over the header lines: any bad length line fails the parse; otherwise the length is
   * that of the last length line, or `contentLen` when there is none.
   */
  function ScanLines(lines: seq<Bytes>, contentLen: int): (r: Option<int>)
    requires MinInt64 <= contentLen <= MaxInt64
    ensures r.Some? ==> MinInt64 <= r.value <= MaxInt64
    decreases |lines|
  {
    if lines == [] then Some(contentLen)
    else
      var head := ReadLengthLine(lines[0]);
      var tail := ScanLines(lines[1..], if head.LengthLine? then head.n else contentLen);
      if head.BadLength? then None else tail
  }

  /** The scan fails exactly when some length line is bad. */
  lemma {:induction false} ScanLinesFails(lines: seq<Bytes>, contentLen: int)
    requires MinInt64 <= contentLen <= MaxInt64
    ensures ScanLines(lines, contentLen).None? <==> exists i | 0 <= i < |lines| :: ReadLengthLine(lines[i]).BadLength?
    decreases |lines|
  {
    if lines != [] {
      var head := ReadLengthLine(lines[0]);
      var tail := lines[1..];
      var next := if head.LengthLine? then head.n else contentLen;
      ScanLinesFails(tail, next);
      if head.BadLength? {
        assert ReadLengthLine(lines[0]).BadLength?;
      } else if ScanLines(tail, next).None? {
        var j :| 0 <= j < |tail| && ReadLengthLine(tail[j]).BadLength?;
        assert lines[j + 1] == tail[j];
      } else {
        forall i | 0 <= i < |lines| ensures !ReadLengthLine(lines[i]).BadLength? {
          if i > 0 {
            assert lines[i] == tail[i - 1];
          }
        }
      }
    }
  }

  /** Without a length line the length stays as it was (zero: missing). */
  lemma {:induction false} ScanLinesNoLength(lines: seq<Bytes>, contentLen: int)
    requires MinInt64 <= contentLen <= MaxInt64
    requires forall i | 0 <= i < |lines| :: ReadLengthLine(lines[i]).OtherLine?
    ensures ScanLines(lines, contentLen) == Some(contentLen)
    decreases |lines|
  {
    if lines != [] {
      assert ReadLengthLine(lines[0]).OtherLine?;
      assert forall i | 0 <= i < |lines| - 1 :: lines[1..][i] == lines[i + 1];
      ScanLinesNoLength(lines[1..], contentLen);
    }
  }

  /** The last length line wins. */
  lemma {:induction false} ScanLinesLastWins(lines: seq<Bytes>, contentLen: int)
    requires MinInt64 <= contentLen <= MaxInt64
    requires |lines| > 0 && ReadLengthLine(lines[|lines| - 1]).LengthLine?
    requires ScanLines(lines, contentLen).Some?
    ensures ScanLines(lines, contentLen) == Some(ReadLengthLine(lines[|lines| - 1]).n)
    decreases |lines|
  {
    var head := ReadLengthLine(lines[0]);
    if |lines| > 1 {
      assert lines[1..][|lines| - 2] == lines[|lines| - 1];
      ScanLinesLastWins(lines[1..], if head.LengthLine? then head.n else contentLen);
    }
  }

  /**
   * `parseContentLength` as written: the first "\r\n\r\n" ends the header block and the body
   * starts 4 bytes later; a bad length line, or a length of zero (the default), gives not-ok.
   * A negative length is returned as it is.
   */
  function ParsedContentLengthAsWritten(data: Bytes): (r: Option<(int, nat)>)
    ensures Index(data, Terminator).None? ==> r.None?
    ensures r.Some? ==> (Index(data, Terminator).Some? && r.value.1 == Index(data, Terminator).value + 4
      && r.value.1 <= |data| && r.value.0 != 0 && MinInt64 <= r.value.0 <= MaxInt64)
  {
    match Index(data, Terminator)
    case None => None
    case Some(idx) =>
      match ScanLines(Split(data[..idx], LineBreak), 0)
      case None => None
      case Some(n) => if n == 0 then None else Some((n, idx + 4))
  }

  /**
   * `parseContentLength` with the evidently intended check: only a positive length is a length,
   * so a negative one is rejected like a malformed one.
   */
  function ParsedContentLength(data: Bytes): (r: Option<(nat, nat)>)
    ensures r.Some? ==> r.value.0 > 0 && r.value.1 <= |data|
    ensures ParsedContentLengthAsWritten(data).Some? && ParsedContentLengthAsWritten(data).value.0 > 0 ==>
      r == Some((ParsedContentLengthAsWritten(data).value.0 as nat, ParsedContentLengthAsWritten(data).value.1))
    ensures !(ParsedContentLengthAsWritten(data).Some? && ParsedContentLengthAsWritten(data).value.0 > 0) ==> r.None?
  {
    match ParsedContentLengthAsWritten(data)
    case None => None
    case Some((n, h)) => if n > 0 then Some((n as nat, h)) else None
  }

  /** `parseContentLength`: finds the header block, then scans its lines one at a time. */
  method ParseContentLength(data: Bytes) returns (contentLen: nat, headerEnd: nat, ok: bool)
    ensures ok <==> ParsedContentLength(data).Some?
    ensures ok ==> (contentLen, headerEnd) == ParsedContentLength(data).value
  {
    var idx := Index(data, Terminator);
    if idx.None? {
      return 0, 0, false;
    }
    headerEnd := idx.value + 4;
    var lines := Split(data[..idx.value], LineBreak);
    var n: int := 0;
    for i := 0 to |lines|
      invariant MinInt64 <= n <= MaxInt64
      invariant ScanLines(lines, 0) == ScanLines(lines[i..], n)
    {
      assert lines[i..][0] == lines[i] && lines[i..][1..] == lines[i + 1..];
      var v := CutPrefix(lines[i], ContentLengthKey);
      if v.Some? {
        var value := Atoi(TrimSpace(v.value));
        if value.None? {
          return 0, 0, false;
        }
        n := value.value;
      }
    }
    assert lines[|lines|..] == [];
    if n <= 0 {
      return 0, 0, false;
    }
    contentLen := n;
    ok := true;
  }

  // ---------------------------------------------------------------------------------------------
  // extractMessages
  // ---------------------------------------------------------------------------------------------

  /** One turn of the extraction loop: wait for more data, or take one complete frame. */
  datatype Step = Incomplete | Complete(body: Bytes, rest: Bytes)

  /**
   * A turn of `extractMessages` with the two evidently intended guards: the frame is waited for
   * until `headerEnd + contentLen` bytes are buffered, computed without overflow, and only a
   * positive length is accepted.
   */
  function ExtractStep(data: Bytes): (s: Step)
    ensures ParsedContentLength(data).None? ==> s == Incomplete
    ensures ParsedContentLength(data).Some? ==> var (n, h) := ParsedContentLength(data).value;
      && (s.Complete? <==> h + n <= |data|)
      && (s.Complete? ==> s.body == data[h..h + n] && s.rest == data[h + n..])
    ensures s.Complete? ==> |s.body| > 0 && |s.rest| < |data|
  {
    match ParsedContentLength(data)
    case None => Incomplete
    case Some((n, h)) =>
      if |data| < h + n then Incomplete
      else Complete(data[h..h + n], data[h + n..])
  }

  /** Go's `int` addition: the 64-bit value congruent to the sum. */
  function AddInt64(a: int, b: int): (r: int)
    requires MinInt64 <= a <= MaxInt64 && MinInt64 <= b <= MaxInt64
    ensures MinInt64 <= r <= MaxInt64
    ensures r == a + b || r == a + b - 0x1_0000_0000_0000_0000 || r == a + b + 0x1_0000_0000_0000_0000
  {
    if a + b > MaxInt64 then a + b - 0x1_0000_0000_0000_0000
    else if a + b < MinInt64 then a + b + 0x1_0000_0000_0000_0000
    else a + b
  }

  /**
   * A turn of `extractMessages` as written, `None` where it panics: `totalLen` wraps around for a
   * length near the 64-bit maximum and then passes the `len(data) < totalLen` guard, and
   * `make([]byte, contentLen)` panics on a negative or huge length. A Go slice is shorter than
   * 2^63 bytes.
   */
  function ExtractStepAsWritten(data: Bytes): (s: Option<Step>)
    requires |data| <= MaxInt64
    ensures s.None? <==> (ParsedContentLengthAsWritten(data).Some? &&
      (ParsedContentLengthAsWritten(data).value.0 < 0
       || ParsedContentLengthAsWritten(data).value.0 + ParsedContentLengthAsWritten(data).value.1 > MaxInt64))
    ensures s.Some? ==> s.value == ExtractStep(data)
  {
    match ParsedContentLengthAsWritten(data)
    case None => Some(Incomplete)
    case Some((n, h)) =>
      var total := AddInt64(h, n);
      if |data| < total then Some(Incomplete)
      else if n < 0 || total < h then None
      else Some(Complete(data[h..total], data[total..]))
  }

  /** `extractMessages` on a value: the bodies of the complete frames in order, and what is left. */
  function Extracted(data: Bytes): (r: (seq<Bytes>, Bytes))
    ensures |r.1| <= |data|
    decreases |data|
  {
    match ExtractStep(data)
    case Incomplete => ([], data)
    case Complete(body, rest) =>
      var t := Extracted(rest);
      ([body] + t.0, t.1)
  }

  // ---------------------------------------------------------------------------------------------
  // Properties of the framing
  // ---------------------------------------------------------------------------------------------

  predicate NoCR(p: Bytes) { forall i | 0 <= i < |p| :: p[i] != CR }

  /** The header line `FormatMessage` writes holds no carriage return. */
  lemma LengthLineNoCR(n: int)
    ensures NoCR(ContentLengthKey + [Space] + Ascii(Decimal(n)))
  {
    var d := Decimal(n);
    var v := Ascii(d);
    forall i | 0 <= i < |v| ensures v[i] != CR {
      assert v[i] == (d[i] as int % 256) as byte;
    }
  }

  /** In bytes whose first `m` hold no carriage return, a terminator can only start at `m` or later. */
  lemma NoTerminatorBefore(s: Bytes, m: nat, j: int)
    requires m <= |s| && NoCR(s[..m]) && 0 <= j < m
    ensures !MatchAt(s, Terminator, j)
  {
    assert s[..m][j] == s[j];
    if j + 4 <= |s| {
      assert s[j..j + 4][0] == s[j];
    }
  }

  /** The first terminator after a carriage-return-free prefix is the one right after it. */
  lemma TerminatorAt(p: Bytes, tail: Bytes)
    requires NoCR(p)
    ensures Index(p + Terminator + tail, Terminator) == Some(|p|)
  {
    var s := p + Terminator + tail;
    assert s[..|p|] == p;
    assert s[|p|..|p| + 4] == Terminator;
    assert MatchAt(s, Terminator, |p|);
    forall j | 0 <= j < |p| ensures !MatchAt(s, Terminator, j) {
      NoTerminatorBefore(s, |p|, j);
    }
  }

  /** A cut-off header block holds no terminator yet. */
  lemma NoTerminatorYet(p: Bytes, k: nat)
    requires NoCR(p) && k < |p| + 4
    ensures Index((p + Terminator)[..k], Terminator).None?
  {
    var s := (p + Terminator)[..k];
    var m := if k < |p| then k else |p|;
    assert s[..m] == p[..m];
    forall j | 0 <= j <= |s| ensures !MatchAt(s, Terminator, j) {
      if j < m {
        NoTerminatorBefore(s, m, j);
      }
    }
  }

  /** A single header line without a line break is split into itself. */
  lemma SplitOneLine(p: Bytes)
    requires NoCR(p)
    ensures Split(p, LineBreak) == [p]
  {
    forall j | 0 <= j <= |p| ensures !MatchAt(p, LineBreak, j) {
      if j + 2 <= |p| {
        assert p[j..j + 2][0] == p[j];
      }
    }
  }

  /** The header line `FormatMessage` writes reads as its length. */
  lemma LengthLineReads(n: int)
    requires MinInt64 <= n <= MaxInt64
    ensures ReadLengthLine(ContentLengthKey + [Space] + Ascii(Decimal(n))) == LengthLine(n)
  {
    var digits := Ascii(Decimal(n));
    LengthValue(n);
    LengthLineTrim(digits);
    assert CutPrefix(ContentLengthKey + [Space] + digits, ContentLengthKey) == Some([Space] + digits);
    assert Atoi(TrimSpace([Space] + digits)) == Some(n);
  }

  /** A header block of one line scans as that line's length. */
  lemma OneLineScan(p: Bytes, n: int)
    requires MinInt64 <= n <= MaxInt64 && ReadLengthLine(p) == LengthLine(n)
    ensures ScanLines([p], 0) == Some(n)
  {
    assert [p][1..] == [];
  }

  /** A header block holding one "Content-Length: n" line parses as `n` (zero is not ok). */
  lemma ParseOfLengthHeader(n: int, rest: Bytes)
    requires MinInt64 <= n <= MaxInt64
    ensures var p := ContentLengthKey + [Space] + Ascii(Decimal(n));
      ParsedContentLengthAsWritten(p + Terminator + rest) == (if n == 0 then None else Some((n, |p| + 4)))
  {
    var p := ContentLengthKey + [Space] + Ascii(Decimal(n));
    var data := p + Terminator + rest;
    LengthLineNoCR(n);
    TerminatorAt(p, rest);
    SplitOneLine(p);
    LengthLineReads(n);
    OneLineScan(p, n);
    assert data[..|p|] == p;
  }

  /** The header `FormatMessage` writes parses back to the body length and the header's size. */
  lemma ParseOfFormat(b: Bytes, rest: Bytes)
    requires 0 < |b| <= MaxInt64
    ensures ParsedContentLength(FormatMessage(b) + rest) == Some((|b|, |Header(|b|)|))
    ensures ExtractStep(FormatMessage(b) + rest) == Complete(b, rest)
  {
    var p := ContentLengthKey + [Space] + Ascii(Decimal(|b|));
    FormatParses(p, b, rest);
    StepTakes(FormatMessage(b) + rest, |b|, |p| + 4);
  }

  lemma FormatParses(p: Bytes, b: Bytes, rest: Bytes)
    requires 0 < |b| <= MaxInt64 && p == ContentLengthKey + [Space] + Ascii(Decimal(|b|))
    ensures ParsedContentLength(FormatMessage(b) + rest) == Some((|b|, |p| + 4))
    ensures |Header(|b|)| == |p| + 4
    ensures (FormatMessage(b) + rest)[|p| + 4..|p| + 4 + |b|] == b
    ensures (FormatMessage(b) + rest)[|p| + 4 + |b|..] == rest
  {
    FormatSplit(p, b, rest);
    ParseOfLengthHeader(|b|, b + rest);
  }

  lemma FormatSplit(p: Bytes, b: Bytes, rest: Bytes)
    requires p == ContentLengthKey + [Space] + Ascii(Decimal(|b|))
    ensures FormatMessage(b) + rest == p + Terminator + (b + rest)
    ensures |Header(|b|)| == |p| + 4
    ensures (FormatMessage(b) + rest)[|p| + 4..|p| + 4 + |b|] == b
    ensures (FormatMessage(b) + rest)[|p| + 4 + |b|..] == rest
  {
    var data := FormatMessage(b) + rest;
    assert data == p + Terminator + (b + rest);
    assert data[|p| + 4..] == b + rest;
  }

  /** Without a terminator there is nothing to parse. */
  lemma NoTerminatorNotOk(data: Bytes)
    requires forall j | 0 <= j <= |data| :: !MatchAt(data, Terminator, j)
    ensures ParsedContentLength(data).None? && ExtractStep(data) == Incomplete
  {
  }

  /** A parsed header block parses the same however many bytes follow it. */
  lemma ParseExtend(d: Bytes, more: Bytes)
    requires ParsedContentLengthAsWritten(d).Some?
    ensures ParsedContentLengthAsWritten(d + more) == ParsedContentLengthAsWritten(d)
    ensures ParsedContentLength(d + more) == ParsedContentLength(d)
  {
    IndexExtend(d, more, Terminator);
    var idx := Index(d, Terminator).value;
    assert (d + more)[..idx] == d[..idx];
  }

  /** A complete frame stays complete, with the same body, when more bytes follow. */
  lemma StepExtend(d: Bytes, more: Bytes)
    requires ExtractStep(d).Complete?
    ensures ExtractStep(d + more) == Complete(ExtractStep(d).body, ExtractStep(d).rest + more)
  {
    ParseExtend(d, more);
    var (n, h) := ParsedContentLength(d).value;
    assert (d + more)[h..h + n] == d[h..h + n];
    assert (d + more)[h + n..] == d[h + n..] + more;
  }

  /**
   * Chunking does not matter: extracting from `a + b` gives the frames of `a`, then those of
   * what `a` left over followed by `b`.
   */
  lemma {:induction false} ExtractedAppend(a: Bytes, b: Bytes)
    ensures Extracted(a + b) == (Extracted(a).0 + Extracted(Extracted(a).1 + b).0, Extracted(Extracted(a).1 + b).1)
    decreases |a|
  {
    match ExtractStep(a)
    case Incomplete =>
      assert Extracted(a) == ([], a);
      assert Extracted(a).1 + b == a + b;
      assert [] + Extracted(a + b).0 == Extracted(a + b).0;
    case Complete(body, rest) =>
      StepExtend(a, b);
      ExtractedAppend(rest, b);
      var y := Extracted(Extracted(rest).1 + b);
      assert Extracted(a + b) == ([body] + Extracted(rest + b).0, Extracted(rest + b).1);
      assert [body] + (Extracted(rest).0 + y.0) == ([body] + Extracted(rest).0) + y.0;
  }

  /** New bytes continue the extraction where the buffer left it. */
  lemma Advance(seen: Bytes, sent: seq<Bytes>, buf: Bytes, more: Bytes)
    requires Extracted(seen) == (sent, buf)
    ensures Extracted(seen + more) == (sent + Extracted(buf + more).0, Extracted(buf + more).1)
  {
    ExtractedAppend(seen, more);
  }

  /** Feeding no bytes extracts nothing and leaves the history as it was. */
  lemma NothingFed(seen: Bytes, sent: seq<Bytes>, buf: Bytes, more: Bytes)
    requires Extracted(seen) == (sent, buf) && more == []
    ensures seen + more == seen && buf + more == buf
    ensures Extracted(buf + more) == ([], buf) && sent + Extracted(buf + more).0 == sent
  {
    Stuck(seen, sent, buf);
    assert buf + more == buf;
    assert sent + [] == sent;
  }

  /** What extraction leaves behind holds no complete frame. */
  lemma {:induction false} ExtractedLeftover(data: Bytes)
    ensures ExtractStep(Extracted(data).1) == Incomplete
    decreases |data|
  {
    match ExtractStep(data)
    case Incomplete =>
    case Complete(_, rest) =>
      ExtractedLeftover(rest);
  }

  /** So extracting again from the leftover finds nothing. */
  lemma Stuck(seen: Bytes, sent: seq<Bytes>, buf: Bytes)
    requires Extracted(seen) == (sent, buf)
    ensures Extracted(buf) == ([], buf)
  {
    ExtractedLeftover(seen);
  }

  /** A complete frame at the front: its body comes first, then the frames of what follows. */
  lemma ExtractedTakes(data: Bytes, body: Bytes, rest: Bytes)
    requires ExtractStep(data) == Complete(body, rest)
    ensures Extracted(data) == ([body] + Extracted(rest).0, Extracted(rest).1)
  {
  }

  /** One more frame taken off the front moves its body from the buffer to what was sent. */
  lemma ExtractedNext(data: Bytes, sent: seq<Bytes>, rest: Bytes, body: Bytes, later: Bytes)
    requires Extracted(data) == (sent + Extracted(rest).0, Extracted(rest).1)
    requires ExtractStep(rest) == Complete(body, later)
    ensures Extracted(data) == ((sent + [body]) + Extracted(later).0, Extracted(later).1)
  {
    ExtractedTakes(rest, body, later);
    assert sent + ([body] + Extracted(later).0) == (sent + [body]) + Extracted(later).0;
  }

  /** The step the loop takes once a length and the whole body are there. */
  lemma StepTakes(data: Bytes, n: nat, h: nat)
    requires ParsedContentLength(data) == Some((n, h)) && h + n <= |data|
    ensures ExtractStep(data) == Complete(data[h..h + n], data[h + n..])
  {
  }

  /** No complete frame at the front: nothing is extracted and the buffer is kept. */
  lemma ExtractedStops(data: Bytes)
    requires ParsedContentLength(data).None? || ParsedContentLength(data).value.1 + ParsedContentLength(data).value.0 > |data|
    ensures Extracted(data) == ([], data)
  {
    assert ExtractStep(data) == Incomplete;
  }

  lemma ExtractedEmpty()
    ensures Extracted([]) == ([], [])
  {
    assert ExtractStep([]) == Incomplete;
  }

  /** A frame followed by anything yields its body first. */
  lemma ExtractedFrame(b: Bytes, rest: Bytes)
    requires 0 < |b| <= MaxInt64
    ensures Extracted(FormatMessage(b) + rest) == ([b] + Extracted(rest).0, Extracted(rest).1)
  {
    ParseOfFormat(b, rest);
  }

  /** Two concatenated frames yield two bodies, in order, and leave nothing behind. */
  lemma TwoFrames(a: Bytes, b: Bytes)
    requires 0 < |a| <= MaxInt64 && 0 < |b| <= MaxInt64
    ensures Extracted(FormatMessage(a) + FormatMessage(b)) == ([a, b], [])
  {
    ExtractedEmpty();
    ExtractedFrame(b, []);
    assert FormatMessage(b) + [] == FormatMessage(b);
    assert [b] + [] == [b];
    assert Extracted(FormatMessage(b)) == ([b], []);
    ExtractedFrame(a, FormatMessage(b));
    assert [a] + [b] == [a, b];
  }

  /** A frame cut off anywhere before its end is left in the buffer untouched. */
  lemma PartialFrameKept(b: Bytes, k: nat)
    requires 0 < |b| <= MaxInt64 && k < |FormatMessage(b)|
    ensures ExtractStep(FormatMessage(b)[..k]) == Incomplete
    ensures Extracted(FormatMessage(b)[..k]) == ([], FormatMessage(b)[..k])
  {
    var p := ContentLengthKey + [Space] + Ascii(Decimal(|b|));
    var f := FormatMessage(b);
    var s := f[..k];
    LengthLineNoCR(|b|);
    if k < |p| + 4 {
      assert s == (p + Terminator)[..k];
      NoTerminatorYet(p, k);
    } else {
      assert s == p + Terminator + s[|p| + 4..];
      ParseOfLengthHeader(|b|, s[|p| + 4..]);
    }
  }

  /** A negative length takes the as-written loop to `make`, which panics; corrected, it waits. */
  lemma NegativeLengthPanics(rest: Bytes)
    requires |rest| <= 1000
    ensures var data := ContentLengthKey + [Space] + Ascii(Decimal(-1)) + Terminator + rest;
      |data| <= MaxInt64 && ExtractStepAsWritten(data).None? && ExtractStep(data) == Incomplete
  {
    DecimalShort(-1);
    ParseOfLengthHeader(-1, rest);
  }

  /** The largest length wraps `totalLen` below zero, past the guard, and panics; corrected, it waits. */
  lemma HugeLengthPanics(rest: Bytes)
    requires |rest| <= 1000
    ensures var data := ContentLengthKey + [Space] + Ascii(Decimal(MaxInt64)) + Terminator + rest;
      |data| <= MaxInt64 && ExtractStepAsWritten(data).None? && ExtractStep(data) == Incomplete
  {
    DecimalShort(MaxInt64);
    ParseOfLengthHeader(MaxInt64, rest);
  }

  // ---------------------------------------------------------------------------------------------
  // The tap
  // ---------------------------------------------------------------------------------------------

  /** The store after `Add` of each body in turn, in one direction. */
  function AddAll(st: State, direction: string, bodies: seq<Bytes>, peek: Bytes -> Peek): (r: State)
    requires |st.entries| <= MaxEntries
    ensures |r.entries| <= MaxEntries
    ensures r.nextID == st.nextID + |bodies|
    decreases |bodies|
  {
    if bodies == [] then st
    else
      var last := bodies[|bodies| - 1];
      AddEntry(AddAll(st, direction, bodies[..|bodies| - 1], peek), direction, last, Classify(peek(last)))
  }

  /** Adding one more body adds its entry after those of the bodies before it. */
  lemma AddAllSnoc(st: State, direction: string, bodies: seq<Bytes>, b: Bytes, peek: Bytes -> Peek)
    requires |st.entries| <= MaxEntries
    ensures AddAll(st, direction, bodies + [b], peek)
      == AddEntry(AddAll(st, direction, bodies, peek), direction, b, Classify(peek(b)))
  {
    assert (bodies + [b])[..|bodies|] == bodies;
  }

  /** What one body cross-posts to a log store that already holds `log`: its entry, if any. */
  function PostOf(log: seq<LogEntry>, body: Bytes, peek: Bytes -> Peek, logParams: Bytes -> Option<LogParams>): seq<LogEntry>
  {
    var post := CrossPost(Classify(peek(body)).methodName, logParams(body));
    if post.Some? then [LogEntry(|log|, post.value.0, post.value.1)] else []
  }

  /**
   * The log store's entries after `Add` of each body in turn: the entries before are kept, and each
   * `window/logMessage` body whose params decode adds one entry, at most one per body.
   */
  function CrossPosted(log: seq<LogEntry>, bodies: seq<Bytes>, peek: Bytes -> Peek, logParams: Bytes -> Option<LogParams>): (r: seq<LogEntry>)
    ensures log <= r && |r| <= |log| + |bodies|
    decreases |bodies|
  {
    if bodies == [] then log
    else
      var before := CrossPosted(log, bodies[..|bodies| - 1], peek, logParams);
      before + PostOf(before, bodies[|bodies| - 1], peek, logParams)
  }

  /** Cross-posting one more body adds its entry after those of the bodies before it. */
  lemma CrossPostedSnoc(log: seq<LogEntry>, bodies: seq<Bytes>, b: Bytes, peek: Bytes -> Peek, logParams: Bytes -> Option<LogParams>)
    ensures CrossPosted(log, bodies + [b], peek, logParams)
      == CrossPosted(log, bodies, peek, logParams) + PostOf(CrossPosted(log, bodies, peek, logParams), b, peek, logParams)
  {
    assert (bodies + [b])[..|bodies|] == bodies;
  }

  /** The k-th entry of `log` has ID k, as `LogStore` numbers them. */
  predicate Numbered(log: seq<LogEntry>)
  {
    forall k | 0 <= k < |log| :: log[k].id == k
  }

  /** Cross-posting keeps the log store's numbering. */
  lemma {:induction false} CrossPostedNumbered(log: seq<LogEntry>, bodies: seq<Bytes>, peek: Bytes -> Peek, logParams: Bytes -> Option<LogParams>)
    requires Numbered(log)
    ensures Numbered(CrossPosted(log, bodies, peek, logParams))
  {
    if bodies != [] {
      var before := CrossPosted(log, bodies[..|bodies| - 1], peek, logParams);
      var r := CrossPosted(log, bodies, peek, logParams);
      CrossPostedNumbered(log, bodies[..|bodies| - 1], peek, logParams);
      assert r == before + PostOf(before, bodies[|bodies| - 1], peek, logParams);
      forall k | 0 <= k < |r|
        ensures r[k].id == k
      {
        if k < |before| {
          assert r[k] == before[k];
        } else {
          var post := PostOf(before, bodies[|bodies| - 1], peek, logParams);
          assert k == |before| && |post| == 1 && r[k] == post[0];
        }
      }
    }
  }

  /** Bodies that are not decodable `window/logMessage` notifications post nothing. */
  lemma {:induction false} CrossPostedQuiet(log: seq<LogEntry>, bodies: seq<Bytes>, peek: Bytes -> Peek, logParams: Bytes -> Option<LogParams>)
    requires forall i | 0 <= i < |bodies| :: Classify(peek(bodies[i])).methodName != "window/logMessage"
    ensures CrossPosted(log, bodies, peek, logParams) == log
  {
    if bodies != [] {
      var init, last := bodies[..|bodies| - 1], bodies[|bodies| - 1];
      assert forall i | 0 <= i < |init| :: init[i] == bodies[i];
      CrossPostedQuiet(log, init, peek, logParams);
      assert Classify(peek(last)).methodName != "window/logMessage";
    }
  }

  /** The store and its log store satisfy their invariants. */
  ghost predicate StoreReady(s: Store)
    reads s, s.logStore
  {
    s.Valid() && (s.logStore != null ==> s.logStore.Valid())
  }

  class Tap {
    const store: Store
    var readBuf: Bytes
    var writeBuf: Bytes
    /** Every byte read and written so far, and the bodies sent to the store from each side. */
    ghost var readSeen: Bytes
    ghost var readSent: seq<Bytes>
    ghost var writeSeen: Bytes
    ghost var writeSent: seq<Bytes>

    /** Each buffer holds what is left of its side's bytes after the complete frames were taken. */
    ghost predicate Valid()
      reads this
    {
      Extracted(readSeen) == (readSent, readBuf) && Extracted(writeSeen) == (writeSent, writeBuf)
    }

    /** `NewTap`. */
    constructor (store: Store)
      ensures Valid() && this.store == store
      ensures readBuf == [] && writeBuf == [] && readSeen == [] && writeSeen == []
    {
      this.store := store;
      readBuf := [];
      writeBuf := [];
      readSeen := [];
      readSent := [];
      writeSeen := [];
      writeSent := [];
      ExtractedEmpty();
    }

    /**
     * `extractMessages`: takes complete frames off the front of the buffer one at a time, adds
     * each body to the store, and returns what is left.
     */
    method ExtractMessages(data: Bytes, direction: string) returns (rest: Bytes)
      requires StoreReady(store)
      modifies store, store.logStore
      ensures StoreReady(store)
      ensures rest == Extracted(data).1
      ensures store.Snapshot() == AddAll(old(store.Snapshot()), direction, Extracted(data).0, store.peek)
      ensures store.logStore != null ==>
        store.logStore.added == CrossPosted(old(store.logStore.added), Extracted(data).0, store.peek, store.logParams)
    {
      rest := data;
      ghost var sent: seq<Bytes> := [];
      assert |old(store.Snapshot()).entries| <= MaxEntries;
      assert [] + Extracted(data).0 == Extracted(data).0;
      while true
        invariant StoreReady(store)
        invariant Extracted(data) == (sent + Extracted(rest).0, Extracted(rest).1)
        invariant store.Snapshot() == AddAll(old(store.Snapshot()), direction, sent, store.peek)
        invariant store.logStore != null ==>
          store.logStore.added == CrossPosted(old(store.logStore.added), sent, store.peek, store.logParams)
        decreases |rest|
      {
        var contentLen, headerEnd, ok := ParseContentLength(rest);
        if !ok {
          ExtractedStops(rest);
          assert sent + [] == sent;
          return;
        }
        var total := headerEnd + contentLen;
        if |rest| < total {
          ExtractedStops(rest);
          assert sent + [] == sent;
          return;
        }
        var body := rest[headerEnd..total];
        StepTakes(rest, contentLen, headerEnd);
        ExtractedNext(data, sent, rest, body, rest[total..]);
        rest := rest[total..];
        store.Add(direction, body);
        AddAllSnoc(old(store.Snapshot()), direction, sent, body, store.peek);
        if store.logStore != null {
          CrossPostedSnoc(old(store.logStore.added), sent, body, store.peek, store.logParams);
        }
        sent := sent + [body];
      }
    }

    /** `Read`: the inner stream's bytes, count and error are returned unchanged. */
    method Read(got: Bytes, innerErr: Option<string>) returns (p: Bytes, n: nat, err: Option<string>)
      requires Valid() && StoreReady(store)
      modifies this, store, store.logStore
      ensures Valid() && StoreReady(store)
      ensures p == got && n == |got| && err == innerErr
      ensures readSeen == old(readSeen) + got
      ensures readSent == old(readSent) + Extracted(old(readBuf) + got).0
      ensures store.Snapshot() == AddAll(old(store.Snapshot()), ClientToServer, Extracted(old(readBuf) + got).0, store.peek)
      ensures store.logStore != null ==>
        store.logStore.added == CrossPosted(old(store.logStore.added), Extracted(old(readBuf) + got).0, store.peek, store.logParams)
      ensures writeSeen == old(writeSeen) && writeSent == old(writeSent) && writeBuf == old(writeBuf)
    {
      p, n, err := got, |got|, innerErr;
      if n > 0 {
        Advance(readSeen, readSent, readBuf, got);
        ghost var bodies := Extracted(readBuf + got).0;
        readBuf := ExtractMessages(readBuf + got, ClientToServer);
        readSeen := readSeen + got;
        readSent := readSent + bodies;
      } else {
        NothingFed(readSeen, readSent, readBuf, got);
        assert AddAll(store.Snapshot(), ClientToServer, [], store.peek) == store.Snapshot();
      }
    }

    /**
     * `Write`: the inner stream accepted the first `written` bytes of `p`; the count and error
     * are returned unchanged, and only the accepted bytes are tapped.
     */
    method Write(p: Bytes, written: nat, innerErr: Option<string>) returns (n: nat, err: Option<string>)
      requires written <= |p|
      requires Valid() && StoreReady(store)
      modifies this, store, store.logStore
      ensures Valid() && StoreReady(store)
      ensures n == written && err == innerErr
      ensures writeSeen == old(writeSeen) + p[..written]
      ensures writeSent == old(writeSent) + Extracted(old(writeBuf) + p[..written]).0
      ensures store.Snapshot() == AddAll(old(store.Snapshot()), ServerToClient, Extracted(old(writeBuf) + p[..written]).0, store.peek)
      ensures store.logStore != null ==>
        store.logStore.added == CrossPosted(old(store.logStore.added), Extracted(old(writeBuf) + p[..written]).0, store.peek, store.logParams)
      ensures readSeen == old(readSeen) && readSent == old(readSent) && readBuf == old(readBuf)
    {
      n, err := written, innerErr;
      var accepted := p[..n];
      if n > 0 {
        Advance(writeSeen, writeSent, writeBuf, accepted);
        ghost var bodies := Extracted(writeBuf + accepted).0;
        writeBuf := ExtractMessages(writeBuf + accepted, ServerToClient);
        writeSeen := writeSeen + accepted;
        writeSent := writeSent + bodies;
      } else {
        NothingFed(writeSeen, writeSent, writeBuf, accepted);
        assert AddAll(store.Snapshot(), ServerToClient, [], store.peek) == store.Snapshot();
      }
    }
  }
}
