/** The debug UI's log buffer and its `slog` handler (internal/debugui/logstore.go). */
module DebugLogStore {
  import opened Wrappers
  import opened Text
  import opened Ring

  const MaxLogEntries: nat := 5000

  datatype LogEntry = LogEntry(id: int, level: string, message: string)

  function LogEntryId(e: LogEntry): int { e.id }

  /** A search hit: the lowercased message or level contains the (lowercased) query. */
  function LogHit(query: string): LogEntry -> bool
  {
    (e: LogEntry) => Contains(Lower(e.message), query) || Contains(Lower(e.level), query)
  }

  /** A ring buffer of the last `MaxLogEntries` log messages with sequential IDs. */
  class LogStore {
    var entries: seq<LogEntry>
    var nextID: nat
    /** Every entry added since the store was created or last cleared, in order. */
    ghost var added: seq<LogEntry>

    ghost predicate Valid()
      reads this
    {
      && RingValid(entries, LogEntryId, nextID, MaxLogEntries)
      && |added| == nextID
      && (forall k | 0 <= k < |added| :: added[k].id == k)
      && (forall i | 0 <= i < |entries| :: 0 <= entries[i].id < |added| && entries[i] == added[entries[i].id])
    }

    constructor ()
      ensures Valid() && entries == [] && nextID == 0 && added == []
    {
      entries := [];
      nextID := 0;
      added := [];
    }

    /** `Add`: the entry gets the next ID and goes into the ring. */
    method Add(level: string, message: string)
      requires Valid()
      modifies this
      ensures Valid()
      ensures nextID == old(nextID) + 1
      ensures added == old(added) + [LogEntry(old(nextID), level, message)]
      ensures entries == Insert(old(entries), LogEntry(old(nextID), level, message), old(nextID), MaxLogEntries)
    {
      var e := LogEntry(nextID, level, message);
      InsertKeepsRing(entries, e, LogEntryId, nextID, MaxLogEntries);
      nextID := nextID + 1;
      if |entries| < MaxLogEntries {
        entries := entries + [e];
      } else {
        entries := entries[e.id % MaxLogEntries := e];
      }
      added := added + [e];
    }

    /** `Clear`: no entries, and IDs start again at 0. */
    method Clear()
      modifies this
      ensures Valid() && entries == [] && nextID == 0 && added == []
    {
      entries := [];
      nextID := 0;
      added := [];
    }

    /** `Entries`: one page of the buffer, in slot order. */
    method Entries(offset: int, limit: nat) returns (page: seq<LogEntry>)
      ensures page == Page(entries, offset, limit)
    {
      var start := if offset < 0 then 0 else offset;
      if start >= |entries| {
        return [];
      }
      var end := if start + limit < |entries| then start + limit else |entries|;
      page := entries[start..end];
    }

    /** `Search`: the entries whose message or level contains the query, ignoring ASCII case. */
    method Search(query: string) returns (found: seq<LogEntry>)
      ensures found == Filter(entries, LogHit(Lower(query)))
      ensures forall e :: e in found <==> e in entries && LogHit(Lower(query))(e)
    {
      var q := Lower(query);
      found := [];
      for i := 0 to |entries|
        invariant found == Filter(entries[..i], LogHit(q))
      {
        var e := entries[i];
        FilterSnoc(entries[..i], e, LogHit(q));
        assert entries[..i + 1] == entries[..i] + [e];
        if Contains(Lower(e.message), q) || Contains(Lower(e.level), q) {
          found := found + [e];
        }
      }
      assert entries[..|entries|] == entries;
      forall e ensures e in found <==> e in entries && LogHit(q)(e) {
        FilterMembers(entries, LogHit(q), e);
      }
    }
  }

  /** The buffer holds exactly the most recent `min(nextID, MaxLogEntries)` entries added. */
  lemma LogStoreHoldsLatest(s: seq<LogEntry>, added: seq<LogEntry>, next: nat, k: int)
    requires RingValid(s, LogEntryId, next, MaxLogEntries) && |added| == next
    requires forall j | 0 <= j < |added| :: added[j].id == j
    requires forall i | 0 <= i < |s| :: 0 <= s[i].id < |added| && s[i] == added[s[i].id]
    requires 0 <= k < next
    ensures added[k] in s <==> next - MaxLogEntries <= k
  {
    if next - MaxLogEntries <= k {
      RingHoldsLatest(s, LogEntryId, next, MaxLogEntries, k);
      assert s[k % MaxLogEntries] == added[k];
    } else {
      forall i | 0 <= i < |s| ensures s[i] != added[k] {
        assert s[i].id >= next - MaxLogEntries > k;
      }
    }
  }

  // ---------------------------------------------------------------------------------------------
  // slog handler
  // ---------------------------------------------------------------------------------------------

  /** An attribute, its value already rendered by `slog.Value.String`. */
  datatype Attr = Attr(key: string, value: string)

  /** `formatAttr`: `key=value`, the key qualified by the group when there is one. */
  function FormatAttr(group: string, a: Attr): (r: string)
    ensures group == "" ==> r == a.key + "=" + a.value
    ensures group != "" ==> r == group + "." + a.key + "=" + a.value
  {
    var key := if group != "" then group + "." + a.key else a.key;
    key + "=" + a.value
  }

  /** The handler: the store it writes to, the attributes given so far and the group prefix. */
  datatype SlogHandler = SlogHandler(store: LogStore, attrs: seq<Attr>, group: string)

  /** `WithAttrs`: a copy whose attributes are the old ones followed by the new ones. */
  function WithAttrs(h: SlogHandler, attrs: seq<Attr>): (r: SlogHandler)
    ensures r.store == h.store && r.group == h.group
    ensures |r.attrs| == |h.attrs| + |attrs|
    ensures r.attrs[..|h.attrs|] == h.attrs && r.attrs[|h.attrs|..] == attrs
  {
    SlogHandler(h.store, h.attrs + attrs, h.group)
  }

  /** `WithGroup`: a copy with `name` appended to the group path. */
  function WithGroup(h: SlogHandler, name: string): (r: SlogHandler)
    ensures r.store == h.store && r.attrs == h.attrs
    ensures h.group == "" ==> r.group == name
    ensures h.group != "" ==> r.group == h.group + "." + name
  {
    SlogHandler(h.store, h.attrs, if h.group != "" then h.group + "." + name else name)
  }

  /** Nested groups qualify an attribute key with every group name, outermost first. */
  lemma NestedGroups(h: SlogHandler, outer: string, inner: string, a: Attr)
    requires h.group == "" && outer != ""
    ensures FormatAttr(WithGroup(WithGroup(h, outer), inner).group, a) == outer + "." + inner + "." + a.key + "=" + a.value
  {
  }

  /** The rendered attributes, handler's first and then the record's. */
  function Rendered(group: string, attrs: seq<Attr>): (parts: seq<string>)
    ensures |parts| == |attrs|
    ensures forall i | 0 <= i < |attrs| :: parts[i] == FormatAttr(group, attrs[i])
  {
    seq(|attrs|, i requires 0 <= i < |attrs| => FormatAttr(group, attrs[i]))
  }

  /** The message `Handle` stores: unchanged without attributes, else followed by them. */
  function HandledMessage(h: SlogHandler, message: string, recordAttrs: seq<Attr>): (r: string)
    ensures h.attrs + recordAttrs == [] ==> r == message
    ensures h.attrs + recordAttrs != [] ==>
      r == message + " " + Join(Rendered(h.group, h.attrs + recordAttrs), " ")
  {
    var parts := Rendered(h.group, h.attrs + recordAttrs);
    if |parts| > 0 then message + " " + Join(parts, " ") else message
  }

  /** A single attribute is appended after one space. */
  lemma HandledOneAttr(h: SlogHandler, message: string, a: Attr)
    requires h.attrs == []
    ensures HandledMessage(h, message, [a]) == message + " " + FormatAttr(h.group, a)
  {
    assert h.attrs + [a] == [a];
    assert Rendered(h.group, [a]) == [FormatAttr(h.group, a)];
  }

  /**
   * `Handle`: renders the handler's and the record's attributes one by one and stores the
   * lowercased level name with the assembled message.
   */
  method Handle(h: SlogHandler, levelName: string, message: string, recordAttrs: seq<Attr>)
    requires h.store.Valid()
    modifies h.store
    ensures h.store.Valid()
    ensures h.store.added == old(h.store.added) + [LogEntry(old(h.store.nextID), Lower(levelName), HandledMessage(h, message, recordAttrs))]
  {
    var parts: seq<string> := [];
    for i := 0 to |h.attrs|
      invariant parts == Rendered(h.group, h.attrs[..i])
    {
      parts := parts + [FormatAttr(h.group, h.attrs[i])];
    }
    assert h.attrs[..|h.attrs|] == h.attrs;
    for i := 0 to |recordAttrs|
      invariant parts == Rendered(h.group, h.attrs + recordAttrs[..i])
    {
      assert h.attrs + recordAttrs[..i + 1] == (h.attrs + recordAttrs[..i]) + [recordAttrs[i]];
      parts := parts + [FormatAttr(h.group, recordAttrs[i])];
    }
    assert recordAttrs[..|recordAttrs|] == recordAttrs;
    var msg := message;
    if |parts| > 0 {
      msg := msg + " " + Join(parts, " ");
    }
    h.store.Add(Lower(levelName), msg);
  }
}
