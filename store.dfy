/**
 * The debug UI's message store (internal/debugui/store.go): a ring buffer of captured JSON-RPC
 * bodies, each classified, numbered and paired with its request or response.
 */
module DebugStore {
  import opened Wrappers
  import opened Text
  import opened Ring
  import opened JsonRpcMessage
  import opened DebugLogStore

  const MaxEntries: nat := 10000

  /**
   * What `Add` reads from a body with its lenient decode (errors are ignored): the raw text of
   * the `id` member and the `method` member, each absent or present.
   */
  datatype Peek = Peek(id: Option<string>, methodName: Option<string>)

  /** The `type` and `message` members of a `window/logMessage` notification's params. */
  datatype LogParams = LogParams(messageType: int, message: string)

  /** A captured message; the timestamp is left out. */
  datatype Entry = Entry(
    id: int,
    direction: string,
    msgType: string,
    methodName: string,
    rpcId: string,
    body: Bytes,
    pairedWith: int)

  function EntryId(e: Entry): int { e.id }

  /** `trimQuotes`: strips one pair of surrounding double quotes. */
  function TrimQuotes(s: string): (r: string)
    ensures |s| >= 2 && s[0] == '"' && s[|s| - 1] == '"' ==> s == "\"" + r + "\""
    ensures !(|s| >= 2 && s[0] == '"' && s[|s| - 1] == '"') ==> r == s
  {
    if |s| >= 2 && s[0] == '"' && s[|s| - 1] == '"' then s[1..|s| - 1] else s
  }

  // ---------------------------------------------------------------------------------------------
  // Classification
  // ---------------------------------------------------------------------------------------------

  /** The classification of a body: its type, method and correlation ID (each "" when missing). */
  datatype Kind = Kind(msgType: string, methodName: string, rpcId: string)

  predicate PeekHasId(p: Peek) { p.id.Some? && p.id.value != "null" }

  /** The classification switch of `Add`. */
  function Classify(p: Peek): (k: Kind)
    ensures k.msgType == "request" <==> PeekHasId(p) && p.methodName.Some?
    ensures k.msgType == "response" <==> PeekHasId(p) && p.methodName.None?
    ensures k.msgType == "notification" <==> !PeekHasId(p) && p.methodName.Some?
    ensures k.msgType == "" <==> !PeekHasId(p) && p.methodName.None?
    ensures k.methodName == (if p.methodName.Some? then p.methodName.value else "")
    ensures k.rpcId == (if PeekHasId(p) then TrimQuotes(p.id.value) else "")
  {
    if PeekHasId(p) && p.methodName.Some? then Kind("request", p.methodName.value, TrimQuotes(p.id.value))
    else if PeekHasId(p) then Kind("response", "", TrimQuotes(p.id.value))
    else if p.methodName.Some? then Kind("notification", p.methodName.value, "")
    else Kind("", "", "")
  }

  /** What the lenient decode sees of a body the connection decodes as `env`. */
  function PeekOf(env: Envelope): (p: Peek)
    ensures p.methodName == env.methodName
    ensures p.id.Some? <==> env.id.Some?
  {
    Peek(if env.id.Some? then Some(TokenText(env.id.value)) else None, env.methodName)
  }

  /**
   * The store classifies a body as the connection's decoder does, and its correlation ID is the
   * ID's map key (`IdString`). The raw text of a non-null token is never `null`, so the
   * requirement only rules out an unparsed token spelled `null`.
   */
  lemma ClassifyAgreesWithDecoder(env: Envelope)
    requires env.id.Some? && env.id.value.OtherToken? ==> env.id.value.text != "null"
    ensures var k := Classify(PeekOf(env));
      && (k.msgType == "request" <==> HasId(env) && env.methodName.Some?)
      && (k.msgType == "response" <==> HasId(env) && env.methodName.None?)
      && (k.msgType == "notification" <==> !HasId(env) && env.methodName.Some?)
      && (k.msgType == "" <==> DecodeMessage(Success(env)) == Failure(UnknownKind))
    ensures var k := Classify(PeekOf(env)); var m := DecodeMessage(Success(env));
      && (m.Success? && m.value.Req? ==> k.methodName == m.value.req.methodName && k.rpcId == IdString(m.value.req.id))
      && (m.Success? && m.value.Resp? ==> k.rpcId == IdString(m.value.resp.id))
  {
    if env.id.Some? {
      var t := env.id.value;
      match t
      case NullToken =>
      case NumberToken(n) =>
        var d := Decimal(n);
        assert d[0] != '"' && d[0] != 'n';
        assert TokenText(t) != "null";
        assert TrimQuotes(d) == d;
      case StringToken(s) =>
        assert TokenText(t)[0] == '"';
        assert TokenText(t) != "null";
        assert TrimQuotes(TokenText(t)) == s;
      case OtherToken(_) =>
    }
  }

  // ---------------------------------------------------------------------------------------------
  // Correlation and the store's state as a value
  // ---------------------------------------------------------------------------------------------

  /** A response whose correlation ID belongs to an unmatched request is paired with it. */
  predicate Pairs(pending: map<string, int>, e: Entry)
  {
    e.rpcId != "" && e.msgType == "response" && e.rpcId in pending
  }

  /** The pending requests after `e`, and the entry `e` pairs with (-1 for none). */
  function Correlate(pending: map<string, int>, e: Entry): (c: (map<string, int>, int))
    ensures Pairs(pending, e) ==> c == (pending - {e.rpcId}, pending[e.rpcId])
    ensures e.rpcId != "" && e.msgType == "request" ==> c == (pending[e.rpcId := e.id], -1)
    ensures !Pairs(pending, e) && !(e.rpcId != "" && e.msgType == "request") ==> c == (pending, -1)
  {
    if e.rpcId == "" then (pending, -1)
    else if e.msgType == "request" then (pending[e.rpcId := e.id], -1)
    else if e.msgType == "response" && e.rpcId in pending then (pending - {e.rpcId}, pending[e.rpcId])
    else (pending, -1)
  }

  /** A response pairs with the last unmatched request of its correlation ID, and only once. */
  lemma CorrelatePairsOnce(pending: map<string, int>, req: Entry, resp: Entry, again: Entry)
    requires req.msgType == "request" && resp.msgType == "response" && again.msgType == "response"
    requires req.rpcId != "" && resp.rpcId == req.rpcId && again.rpcId == req.rpcId
    ensures var afterReq := Correlate(pending, req).0;
      && Correlate(afterReq, resp).1 == req.id
      && Correlate(Correlate(afterReq, resp).0, again).1 == -1
  {
    var afterReq := Correlate(pending, req).0;
    assert req.rpcId in afterReq;
    assert Pairs(afterReq, resp);
    assert !Pairs(Correlate(afterReq, resp).0, again);
  }

  /** Notifications and messages without a correlation ID leave the pending requests alone. */
  lemma CorrelateIgnoresUnidentified(pending: map<string, int>, e: Entry)
    requires e.rpcId == "" || e.msgType == "notification"
    ensures Correlate(pending, e) == (pending, -1)
  {
  }

  /** The first index at or after `from` holding the entry with ID `id`. */
  function FindId(s: seq<Entry>, id: int, from: nat): (r: Option<nat>)
    requires from <= |s|
    ensures r.Some? ==> (from <= r.value < |s| && s[r.value].id == id
      && forall j | from <= j < r.value :: s[j].id != id)
    ensures r.None? ==> forall j | from <= j < |s| :: s[j].id != id
    decreases |s| - from
  {
    if from == |s| then None else if s[from].id == id then Some(from) else FindId(s, id, from + 1)
  }

  /** `updatePairedWith` on a value: the first entry with ID `id` gets `pairedWith := paired`. */
  function SetPaired(s: seq<Entry>, id: int, paired: int): (r: seq<Entry>)
    ensures |r| == |s|
    ensures forall i | 0 <= i < |s| :: r[i].id == s[i].id
    ensures FindId(s, id, 0).None? ==> r == s
    ensures FindId(s, id, 0).Some? ==> var i := FindId(s, id, 0).value;
      r[i] == s[i].(pairedWith := paired) && forall j | 0 <= j < |s| && j != i :: r[j] == s[j]
  {
    match FindId(s, id, 0)
    case None => s
    case Some(i) => s[i := s[i].(pairedWith := paired)]
  }

  /** The store's fields other than its configuration. */
  datatype State = State(entries: seq<Entry>, nextID: nat, pending: map<string, int>)

  /** The ring layout of the entries, and every pending request ID already issued. */
  ghost predicate StateValid(st: State)
  {
    && RingValid(st.entries, EntryId, st.nextID, MaxEntries)
    && forall r | r in st.pending :: 0 <= st.pending[r] < st.nextID
  }

  /** The entry `Add` builds for a body before correlation. */
  function NewEntry(id: nat, direction: string, raw: Bytes, k: Kind): (e: Entry)
    ensures e.id == id && e.body == raw && e.pairedWith == -1
    ensures e.msgType == k.msgType && e.methodName == k.methodName && e.rpcId == k.rpcId
  {
    Entry(id, direction, k.msgType, k.methodName, k.rpcId, raw, -1)
  }

  /** The state after `Add`: numbered, correlated (both ways) and put into the ring. */
  function AddEntry(st: State, direction: string, raw: Bytes, k: Kind): (r: State)
    requires |st.entries| <= MaxEntries
    ensures r.nextID == st.nextID + 1
    ensures |r.entries| <= MaxEntries
  {
    var e := NewEntry(st.nextID, direction, raw, k);
    var c := Correlate(st.pending, e);
    var entries := if Pairs(st.pending, e) then SetPaired(st.entries, st.pending[e.rpcId], e.id) else st.entries;
    State(Insert(entries, e.(pairedWith := c.1), st.nextID, MaxEntries), st.nextID + 1, c.0)
  }

  /** `Add` keeps the ring layout and the pending map's range. */
  lemma AddEntryKeepsValid(st: State, direction: string, raw: Bytes, k: Kind)
    requires StateValid(st)
    ensures StateValid(AddEntry(st, direction, raw, k))
  {
    var e := NewEntry(st.nextID, direction, raw, k);
    var c := Correlate(st.pending, e);
    var entries := if Pairs(st.pending, e) then SetPaired(st.entries, st.pending[e.rpcId], e.id) else st.entries;
    assert RingValid(entries, EntryId, st.nextID, MaxEntries);
    InsertKeepsRing(entries, e.(pairedWith := c.1), EntryId, st.nextID, MaxEntries);
  }

  /**
   * Pairing works both ways: a response to a pending request stores the request's ID, and the
   * request's entry, when the new entry did not overwrite it, now points at the response.
   */
  lemma AddPairsBothWays(st: State, direction: string, raw: Bytes, k: Kind)
    requires StateValid(st)
    requires Pairs(st.pending, NewEntry(st.nextID, direction, raw, k))
    ensures var r := AddEntry(st, direction, raw, k); var req := st.pending[k.rpcId];
      && st.nextID % MaxEntries < |r.entries|
      && r.entries[st.nextID % MaxEntries] == NewEntry(st.nextID, direction, raw, k).(pairedWith := req)
      && (st.nextID + 1 - MaxEntries <= req ==>
        (req % MaxEntries < |r.entries| && r.entries[req % MaxEntries].id == req
         && r.entries[req % MaxEntries].pairedWith == st.nextID))
  {
    var e := NewEntry(st.nextID, direction, raw, k);
    var req := st.pending[k.rpcId];
    var s := SetPaired(st.entries, req, e.id);
    var r := AddEntry(st, direction, raw, k);
    assert r.entries == Insert(s, e.(pairedWith := req), st.nextID, MaxEntries);
    if |s| < MaxEntries {
      assert st.nextID < MaxEntries && st.nextID % MaxEntries == st.nextID;
    }
    if st.nextID + 1 - MaxEntries <= req {
      RingHoldsLatest(st.entries, EntryId, st.nextID, MaxEntries, req);
      var i := req % MaxEntries;
      var found := FindId(st.entries, req, 0);
      if found.Some? {
        RingKeysDistinct(st.entries, EntryId, st.nextID, MaxEntries, found.value, i);
      }
      assert s[i].id == req && s[i].pairedWith == e.id;
      if |s| == MaxEntries {
        if i == st.nextID % MaxEntries {
          SameSlotSameKey(req, st.nextID, st.nextID + 1, MaxEntries);
        }
      }
    }
  }

  /** The pairing of a request and its response on an empty store. */
  lemma RequestResponseScenario(req: Bytes, resp: Bytes)
    ensures var st := AddEntry(AddEntry(State([], 0, map[]), "client→server", req, Kind("request", "initialize", "1")),
                               "server→client", resp, Kind("response", "", "1"));
      && st.entries == [Entry(0, "client→server", "request", "initialize", "1", req, 1),
                        Entry(1, "server→client", "response", "", "1", resp, 0)]
      && st.nextID == 2 && st.pending == map[]
  {
    var st1 := AddEntry(State([], 0, map[]), "client→server", req, Kind("request", "initialize", "1"));
    assert st1.entries == [Entry(0, "client→server", "request", "initialize", "1", req, -1)];
    assert st1.pending == map["1" := 0];
    assert FindId(st1.entries, 0, 0) == Some(0);
  }

  /** An entry is found by ID exactly when it is one of the last `MaxEntries` added. */
  lemma FindIdInWindow(st: State, id: int)
    requires StateValid(st)
    ensures FindId(st.entries, id, 0).Some? <==> 0 <= id < st.nextID && st.nextID - MaxEntries <= id
  {
    if 0 <= id < st.nextID && st.nextID - MaxEntries <= id {
      RingHoldsLatest(st.entries, EntryId, st.nextID, MaxEntries, id);
    }
  }

  /** The level a `window/logMessage` type is cross-posted with. */
  function LogLevel(messageType: int): (level: string)
    ensures messageType == 1 <==> level == "error"
    ensures messageType == 2 <==> level == "warning"
    ensures messageType == 4 <==> level == "log"
    ensures !(messageType in {1, 2, 4}) <==> level == "info"
  {
    if messageType == 1 then "error" else if messageType == 2 then "warning" else if messageType == 4 then "log" else "info"
  }

  /** What `Add` posts to the log store: only `window/logMessage` bodies whose params decode. */
  function CrossPost(methodName: string, params: Option<LogParams>): (r: Option<(string, string)>)
    ensures r.Some? <==> methodName == "window/logMessage" && params.Some?
    ensures r.Some? ==> r.value == (LogLevel(params.value.messageType), params.value.message)
  {
    if methodName == "window/logMessage" && params.Some? then Some((LogLevel(params.value.messageType), params.value.message)) else None
  }

  /** A search hit: the lowercased method or body contains the (lowercased) query. */
  function Hit(query: string): Entry -> bool
  {
    (e: Entry) => Contains(Lower(e.methodName), query) || Contains(Lower(AsText(e.body)), query)
  }

  // ---------------------------------------------------------------------------------------------
  // The store
  // ---------------------------------------------------------------------------------------------

  class Store {
    var entries: seq<Entry>
    var nextID: nat
    var pending: map<string, int>
    /** The log store `window/logMessage` bodies are cross-posted to, if any. */
    const logStore: LogStore?
    /** The lenient decode of a body's `id` and `method`. */
    const peek: Bytes -> Peek
    /** The decode of a body's `params` as `window/logMessage` params, `None` when it fails. */
    const logParams: Bytes -> Option<LogParams>

    function Snapshot(): State
      reads this
    {
      State(entries, nextID, pending)
    }

    ghost predicate Valid()
      reads this
    {
      StateValid(Snapshot())
    }

    /** `NewStore`. */
    constructor (logStore: LogStore?, peek: Bytes -> Peek, logParams: Bytes -> Option<LogParams>)
      ensures Valid() && entries == [] && nextID == 0 && pending == map[]
      ensures this.logStore == logStore && this.peek == peek && this.logParams == logParams
    {
      entries := [];
      nextID := 0;
      pending := map[];
      this.logStore := logStore;
      this.peek := peek;
      this.logParams := logParams;
    }

    /** `updatePairedWith`: scans for the entry and updates the first match only. */
    method UpdatePairedWith(entryID: int, pairedID: int)
      modifies this
      ensures entries == SetPaired(old(entries), entryID, pairedID)
      ensures nextID == old(nextID) && pending == old(pending)
    {
      for i := 0 to |entries|
        invariant entries == old(entries) && nextID == old(nextID) && pending == old(pending)
        invariant forall j | 0 <= j < i :: entries[j].id != entryID
      {
        if entries[i].id == entryID {
          assert FindId(entries, entryID, 0) == Some(i);
          entries := entries[i := entries[i].(pairedWith := pairedID)];
          return;
        }
      }
    }

    /** `Add`: classify, number, correlate, store in the ring, then cross-post log messages. */
    method Add(direction: string, raw: Bytes)
      requires Valid()
      requires logStore != null ==> logStore.Valid()
      modifies this, logStore
      ensures Valid()
      ensures Snapshot() == AddEntry(old(Snapshot()), direction, raw, Classify(peek(raw)))
      ensures logStore != null ==> logStore.Valid()
      ensures logStore != null ==> var post := CrossPost(Classify(peek(raw)).methodName, logParams(raw));
        logStore.added == old(logStore.added)
          + (if post.Some? then [LogEntry(old(logStore.nextID), post.value.0, post.value.1)] else [])
    {
      ghost var st := Snapshot();
      AddEntryKeepsValid(st, direction, raw, Classify(peek(raw)));
      var kind := Classify(peek(raw));
      var e := Entry(nextID, direction, kind.msgType, kind.methodName, kind.rpcId, raw, -1);
      nextID := nextID + 1;
      if e.rpcId != "" {
        if e.msgType == "request" {
          pending := pending[e.rpcId := e.id];
        } else if e.msgType == "response" && e.rpcId in pending {
          var reqID := pending[e.rpcId];
          e := e.(pairedWith := reqID);
          UpdatePairedWith(reqID, e.id);
          pending := pending - {e.rpcId};
        }
      }
      if |entries| < MaxEntries {
        entries := entries + [e];
      } else {
        entries := entries[e.id % MaxEntries := e];
      }
      assert Snapshot() == AddEntry(st, direction, raw, kind);
      if logStore != null && e.methodName == "window/logMessage" {
        var params := logParams(raw);
        if params.Some? {
          logStore.Add(LogLevel(params.value.messageType), params.value.message);
        }
      }
    }

    /** `Clear`: no entries, IDs from 0 again and no pending requests. */
    method Clear()
      modifies this
      ensures Valid() && entries == [] && nextID == 0 && pending == map[]
    {
      entries := [];
      nextID := 0;
      pending := map[];
    }

    /** `Entries`: one page of the buffer, in slot order. */
    method Entries(offset: int, limit: nat) returns (page: seq<Entry>)
      ensures page == Page(entries, offset, limit)
    {
      var start := if offset < 0 then 0 else offset;
      if start >= |entries| {
        return [];
      }
      var end := if start + limit < |entries| then start + limit else |entries|;
      page := entries[start..end];
    }

    /** `Search`: the entries whose method or body contains the query, ignoring ASCII case. */
    method Search(query: string) returns (found: seq<Entry>)
      ensures found == Filter(entries, Hit(Lower(query)))
      ensures forall e :: e in found <==> e in entries && Hit(Lower(query))(e)
    {
      var q := Lower(query);
      found := [];
      for i := 0 to |entries|
        invariant found == Filter(entries[..i], Hit(q))
      {
        var e := entries[i];
        FilterSnoc(entries[..i], e, Hit(q));
        assert entries[..i + 1] == entries[..i] + [e];
        if Contains(Lower(e.methodName), q) || Contains(Lower(AsText(e.body)), q) {
          found := found + [e];
        }
      }
      assert entries[..|entries|] == entries;
      forall e ensures e in found <==> e in entries && Hit(q)(e) {
        FilterMembers(entries, Hit(q), e);
      }
    }

    /** `Entry(id)`: the entry with that ID while it is still buffered, else nothing. */
    method EntryById(id: int) returns (r: Option<Entry>)
      requires Valid()
      ensures r.Some? <==> 0 <= id < nextID && nextID - MaxEntries <= id
      ensures r.Some? ==> r.value.id == id && r.value in entries
    {
      FindIdInWindow(Snapshot(), id);
      for i := 0 to |entries|
        invariant forall j | 0 <= j < i :: entries[j].id != id
      {
        if entries[i].id == id {
          return Some(entries[i]);
        }
      }
      return None;
    }
  }
}
