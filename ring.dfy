/**
 * The bounded ring buffer, pagination and filtering shared by the message store
 * (internal/debugui/store.go) and the log store (internal/debugui/logstore.go).
 */
module Ring {
  import opened Wrappers
  import opened Text

  /**
   * The insert both stores perform: append while there is room, and once full overwrite the
   * slot `id % cap`.
   */
  function Insert<T>(s: seq<T>, x: T, id: nat, cap: nat): (r: seq<T>)
    requires 0 < cap && |s| <= cap
    ensures |r| <= cap
    ensures |s| < cap ==> r == s + [x]
    ensures |s| == cap ==> (|r| == cap && r[id % cap] == x
      && forall i | 0 <= i < cap && i != id % cap :: r[i] == s[i])
  {
    if |s| < cap then s + [x] else s[id % cap := x]
  }

  /**
   * The ring layout after `next` inserts with keys 0, 1, ..., next - 1: it holds the last
   * `min(next, cap)` of them, the one with key `k` in slot `k % cap`.
   */
  ghost predicate RingValid<T>(s: seq<T>, key: T -> int, next: nat, cap: nat)
  {
    && 0 < cap
    && |s| == (if next < cap then next else cap)
    && forall i | 0 <= i < |s| :: 0 <= key(s[i]) < next && next - cap <= key(s[i]) && key(s[i]) % cap == i
  }

  /** `a * b >= b` for a positive factor `a`. */
  lemma MulAtLeast(a: int, b: int)
    requires a >= 1 && b > 0
    ensures a * b >= b
  {
    assert a * b == (a - 1) * b + b;
    assert (a - 1) * b >= 0;
  }

  /** Euclidean division is unique: a quotient and remainder in range are `/` and `%`. */
  lemma DivModUnique(x: int, cap: int, q: int, r: int)
    requires 0 < cap && x == q * cap + r && 0 <= r < cap
    ensures x % cap == r && x / cap == q
  {
    var q', r' := x / cap, x % cap;
    assert x == q' * cap + r';
    assert (q - q') * cap == r' - r;
    if q > q' {
      MulAtLeast(q - q', cap);
    } else if q' > q {
      MulAtLeast(q' - q, cap);
    }
  }

  /** The slot of the key `cap` below the next one is the slot the next key goes into. */
  lemma ModShift(k: int, cap: nat)
    requires 0 < cap
    ensures (k + cap) % cap == k % cap
  {
    assert k == (k / cap) * cap + k % cap;
    assert k + cap == (k / cap + 1) * cap + k % cap;
    DivModUnique(k + cap, cap, k / cap + 1, k % cap);
  }

  /** Inserting the entry with the next key keeps the layout. */
  lemma InsertKeepsRing<T>(s: seq<T>, x: T, key: T -> int, next: nat, cap: nat)
    requires RingValid(s, key, next, cap) && key(x) == next
    ensures RingValid(Insert(s, x, next, cap), key, next + 1, cap)
  {
    var r := Insert(s, x, next, cap);
    if |s| < cap {
      assert next < cap;
      assert next % cap == next;
    } else {
      forall i | 0 <= i < |r| ensures 0 <= key(r[i]) < next + 1 && next + 1 - cap <= key(r[i]) && key(r[i]) % cap == i {
        if i != next % cap {
          assert r[i] == s[i];
          if key(s[i]) == next - cap {
            ModShift(next - cap, cap);
            assert false;
          }
        }
      }
    }
  }

  /** No two slots hold the same key. */
  lemma RingKeysDistinct<T>(s: seq<T>, key: T -> int, next: nat, cap: nat, i: int, j: int)
    requires RingValid(s, key, next, cap)
    requires 0 <= i < |s| && 0 <= j < |s| && key(s[i]) == key(s[j])
    ensures i == j
  {
  }

  /** Every one of the last `min(next, cap)` keys is present, in slot `key % cap`. */
  lemma RingHoldsLatest<T>(s: seq<T>, key: T -> int, next: nat, cap: nat, k: int)
    requires RingValid(s, key, next, cap)
    requires 0 <= k < next && next - cap <= k
    ensures k % cap < |s| && key(s[k % cap]) == k
  {
    var i := k % cap;
    if next < cap {
      assert k % cap == k;
      assert key(s[i]) % cap == i && 0 <= key(s[i]);
      assert key(s[i]) < cap;
      assert key(s[i]) == i;
    } else {
      var c := key(s[i]);
      assert c % cap == k % cap && next - cap <= c < next;
      SameSlotSameKey(c, k, next, cap);
    }
  }

  /** Two keys within one window of `cap` consecutive keys that share a slot are equal. */
  lemma SameSlotSameKey(a: int, b: int, next: int, cap: nat)
    requires 0 < cap && next - cap <= a < next && next - cap <= b < next && a % cap == b % cap
    ensures a == b
  {
    var qa, qb := a / cap, b / cap;
    assert a == qa * cap + a % cap;
    assert b == qb * cap + b % cap;
    assert b - a == (qb - qa) * cap;
    if qa < qb {
      MulAtLeast(qb - qa, cap);
    } else if qb < qa {
      MulAtLeast(qa - qb, cap);
    }
  }

  /**
   * `Entries(offset, limit)` as written: nil at or past the end; otherwise the slice
   * `[offset, min(offset + limit, n))`, and `None` where Go panics for the limits the callers
   * pass: a negative limit makes `make` fail, a negative offset the slice expression. The sum
   * `offset + limit` is unbounded here; Go's `int` sum wraps for a limit near 2^63, which the
   * callers, clamping it to 1..1000, never pass.
   */
  function PageAsWritten<T>(s: seq<T>, offset: int, limit: int): (r: Option<seq<T>>)
    ensures offset >= |s| ==> r == Some([])
    ensures r.None? <==> offset < |s| && (offset < 0 || limit < 0)
    ensures r.Some? && offset < |s| ==>
      r.value == s[offset..if offset + limit < |s| then offset + limit else |s|]
  {
    if offset >= |s| then Some([])
    else if offset < 0 || limit < 0 then None
    else Some(s[offset..if offset + limit < |s| then offset + limit else |s|])
  }

  /** The panic: an offset of -1 on a non-empty store. */
  lemma NegativeOffsetPanics<T>(s: seq<T>, limit: nat)
    requires |s| > 0
    ensures PageAsWritten(s, -1, limit).None?
  {
  }

  /**
   * Pagination with the evidently intended reading of a negative offset, which the HTTP
   * handlers pass through from the query string: start at the first entry.
   */
  function Page<T>(s: seq<T>, offset: int, limit: nat): (r: seq<T>)
    ensures offset >= |s| ==> r == []
    ensures var start := if offset < 0 then 0 else offset;
      start < |s| ==> (|r| == (if limit < |s| - start then limit else |s| - start)
        && forall i | 0 <= i < |r| :: r[i] == s[start + i])
    ensures offset >= 0 ==> PageAsWritten(s, offset, limit) == Some(r)
  {
    var start := if offset < 0 then 0 else offset;
    if start >= |s| then [] else s[start..if start + limit < |s| then start + limit else |s|]
  }

  /** The entries of `s` that satisfy `p`, in the order of `s`. */
  function Filter<T>(s: seq<T>, p: T -> bool): (r: seq<T>)
    ensures |r| <= |s|
  {
    if s == [] then [] else (if p(s[0]) then [s[0]] else []) + Filter(s[1..], p)
  }

  /** An entry is in the filtered sequence exactly when it is in `s` and satisfies `p`. */
  lemma {:induction false} FilterMembers<T>(s: seq<T>, p: T -> bool, x: T)
    ensures x in Filter(s, p) <==> x in s && p(x)
  {
    if s != [] {
      FilterMembers(s[1..], p, x);
      assert s == [s[0]] + s[1..];
    }
  }

  /** Filtering keeps the order: filtering a concatenation concatenates the filtered parts. */
  lemma {:induction false} FilterAppend<T>(a: seq<T>, b: seq<T>, p: T -> bool)
    ensures Filter(a + b, p) == Filter(a, p) + Filter(b, p)
  {
    if a == [] {
      assert a + b == b;
    } else {
      var head := if p(a[0]) then [a[0]] else [];
      assert (a + b)[0] == a[0];
      assert (a + b)[1..] == a[1..] + b;
      FilterAppend(a[1..], b, p);
      calc {
        Filter(a + b, p);
        head + Filter(a[1..] + b, p);
        head + (Filter(a[1..], p) + Filter(b, p));
        { SeqAssoc(head, Filter(a[1..], p), Filter(b, p)); }
        (head + Filter(a[1..], p)) + Filter(b, p);
        Filter(a, p) + Filter(b, p);
      }
    }
  }

  /** Filtering `s` after one more entry is the filter so far, plus that entry if it matches. */
  lemma FilterSnoc<T>(s: seq<T>, x: T, p: T -> bool)
    ensures Filter(s + [x], p) == Filter(s, p) + (if p(x) then [x] else [])
  {
    FilterAppend(s, [x], p);
  }
}
