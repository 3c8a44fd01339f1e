/**
 * Byte and text helpers that mirror the Go standard-library calls the core relies on:
 * `fmt`'s `%d`, `strconv.Atoi`, `strings.TrimSpace`, `strings.CutPrefix`, `bytes.Index`,
 * `strings.Split`, `strings.Contains`, `strings.Join` and an ASCII `strings.ToLower`.
 */
module Text {
  import opened Wrappers

  /** A Go byte. */
  newtype byte = x: int | 0 <= x < 256

  /** A Go byte slice (`[]byte`, and the bytes of a Go string on the wire). */
  type Bytes = seq<byte>

  const MinInt64: int := -0x8000_0000_0000_0000
  const MaxInt64: int := 0x7FFF_FFFF_FFFF_FFFF

  /** Go's `int64` (and `int`, which is 64 bits wide on the platforms the server targets). */
  newtype int64 = x: int | -0x8000_0000_0000_0000 <= x <= 0x7FFF_FFFF_FFFF_FFFF

  const LF: byte := 10
  const CR: byte := 13
  const Space: byte := 32
  const Plus: byte := 43
  const Minus: byte := 45
  const Zero: byte := 48

  /** The bytes of a string whose characters are all below 256 (each character is one byte). */
  function Ascii(s: string): (b: Bytes)
    ensures |b| == |s|
  {
    seq(|s|, i requires 0 <= i < |s| => (s[i] as int % 256) as byte)
  }

  /** The bytes of decimal digits are ASCII digits. */
  lemma AsciiDigits(s: string)
    requires forall i :: 0 <= i < |s| ==> IsDigitChar(s[i])
    ensures forall i :: 0 <= i < |s| ==> IsDigit(Ascii(s)[i])
  {
    forall i | 0 <= i < |s| ensures IsDigit(Ascii(s)[i]) {
      assert Ascii(s)[i] == (s[i] as int % 256) as byte;
    }
  }

  lemma AsciiAppend(a: string, b: string)
    ensures Ascii(a + b) == Ascii(a) + Ascii(b)
  {
    assert forall i :: 0 <= i < |a + b| ==> Ascii(a + b)[i] == (Ascii(a) + Ascii(b))[i];
  }

  // ---------------------------------------------------------------------------------------
  // Decimal formatting (`fmt.Sprintf("%d", n)`) and parsing (`strconv.Atoi`)
  // ---------------------------------------------------------------------------------------

  predicate IsDigitChar(c: char) { '0' <= c <= '9' }

  predicate IsDigit(b: byte) { 48 <= b <= 57 }

  function DigitChar(d: nat): (c: char)
    requires d < 10
    ensures IsDigitChar(c) && c as int - 48 == d
  {
    (48 + d) as char
  }

  /** The decimal digits of `n`, most significant first, without leading zeros. */
  function DecimalNat(n: nat): (s: string)
    ensures |s| > 0
    ensures forall i :: 0 <= i < |s| ==> IsDigitChar(s[i])
    ensures (|s| == 1) == (n < 10)
    decreases n
  {
    if n < 10 then [DigitChar(n)] else DecimalNat(n / 10) + [DigitChar(n % 10)]
  }

  /** `fmt.Sprintf("%d", n)`: a minus sign for negative numbers, then the digits. */
  function Decimal(n: int): (s: string)
    ensures |s| > 0
    ensures forall i :: 0 <= i < |s| ==> IsDigitChar(s[i]) || (i == 0 && s[i] == '-')
    ensures (s[0] == '-') == (n < 0)
    ensures IsDigitChar(s[|s| - 1])
  {
    if n < 0 then "-" + DecimalNat(-n) else DecimalNat(n)
  }

  function Pow10(k: nat): nat
  {
    if k == 0 then 1 else 10 * Pow10(k - 1)
  }

  /** A number below `10^k` has at most `k` digits. */
  lemma {:induction false} DecimalNatDigits(n: nat, k: nat)
    requires 1 <= k && n < Pow10(k)
    ensures |DecimalNat(n)| <= k
    decreases k
  {
    if n >= 10 {
      assert k >= 2;
      DecimalNatDigits(n / 10, k - 1);
    }
  }

  /** A 64-bit number prints in at most 20 characters. */
  lemma DecimalShort(n: int)
    requires MinInt64 <= n <= MaxInt64
    ensures |Decimal(n)| <= 20
  {
    assert Pow10(19) == 10000000000000000000 by {
      assert Pow10(1) == 10;
      assert Pow10(2) == 100;
      assert Pow10(3) == 1000;
      assert Pow10(4) == 10000;
      assert Pow10(5) == 100000;
      assert Pow10(6) == 1000000;
      assert Pow10(7) == 10000000;
      assert Pow10(8) == 100000000;
      assert Pow10(9) == 1000000000;
      assert Pow10(10) == 10000000000;
      assert Pow10(11) == 100000000000;
      assert Pow10(12) == 1000000000000;
      assert Pow10(13) == 10000000000000;
      assert Pow10(14) == 100000000000000;
      assert Pow10(15) == 1000000000000000;
      assert Pow10(16) == 10000000000000000;
      assert Pow10(17) == 100000000000000000;
      assert Pow10(18) == 1000000000000000000;
      assert Pow10(19) == 10000000000000000000;
    }
    DecimalNatDigits(if n < 0 then -n else n, 19);
  }

  /** Two numbers print the same only when they are equal. */
  lemma {:induction false} DecimalNatInjective(a: nat, b: nat)
    requires DecimalNat(a) == DecimalNat(b)
    ensures a == b
    decreases a
  {
    var s := DecimalNat(a);
    if a >= 10 && b >= 10 {
      assert s[..|s| - 1] == DecimalNat(a / 10) == DecimalNat(b / 10);
      DecimalNatInjective(a / 10, b / 10);
      assert s[|s| - 1] == DigitChar(a % 10) == DigitChar(b % 10);
    }
  }

  lemma DecimalInjective(a: int, b: int)
    requires Decimal(a) == Decimal(b)
    ensures a == b
  {
    if a < 0 {
      assert Decimal(a)[1..] == DecimalNat(-a) && Decimal(b)[1..] == DecimalNat(-b);
      DecimalNatInjective(-a, -b);
    } else {
      DecimalNatInjective(a, b);
    }
  }

  /** The value of a non-empty run of decimal digits, as `strconv` reads it (leading zeros allowed). */
  function DigitsValue(s: Bytes): (r: Option<nat>)
    ensures r.Some? <==> |s| > 0 && forall i :: 0 <= i < |s| ==> IsDigit(s[i])
  {
    if |s| == 0 || !IsDigit(s[|s| - 1]) then None
    else if |s| == 1 then Some(s[0] as int - 48)
    else match DigitsValue(s[..|s| - 1])
      case None => None
      case Some(v) => Some(v * 10 + (s[|s| - 1] as int - 48))
  }

  /**
   * `strconv.Atoi` with a 64-bit `int`: an optional sign and then at least one decimal digit,
   * rejected when the value does not fit in 64 bits.
   */
  function Atoi(s: Bytes): (r: Option<int>)
    ensures r.Some? ==> MinInt64 <= r.value <= MaxInt64
    ensures r.Some? ==> |s| > 0 && (r.value < 0 ==> s[0] == Minus)
  {
    var signed := |s| > 0 && (s[0] == Plus || s[0] == Minus);
    var digits := if signed then s[1..] else s;
    match DigitsValue(digits)
    case None => None
    case Some(v) =>
      var n: int := if signed && s[0] == Minus then -(v as int) else v;
      if MinInt64 <= n <= MaxInt64 then Some(n) else None
  }

  lemma {:induction false} DigitsOfDecimal(n: nat)
    ensures DigitsValue(Ascii(DecimalNat(n))) == Some(n)
    decreases n
  {
    if n >= 10 {
      DigitsOfDecimal(n / 10);
      var c := DigitChar(n % 10);
      assert DecimalNat(n) == DecimalNat(n / 10) + [c];
      AsciiSnoc(DecimalNat(n / 10), c);
      DigitsStep(n, Ascii(DecimalNat(n / 10)), (c as int % 256) as byte);
    }
  }

  lemma AsciiSnoc(s: string, c: char)
    ensures Ascii(s + [c]) == Ascii(s) + [(c as int % 256) as byte]
  {
    AsciiAppend(s, [c]);
  }

  /** The digits of `n / 10` followed by the digit `n % 10` spell `n`. */
  lemma DigitsStep(n: nat, prefix: Bytes, last: byte)
    requires DigitsValue(prefix) == Some(n / 10) && last as int == 48 + n % 10
    ensures DigitsValue(prefix + [last]) == Some(n)
  {
    DigitsValueSnoc(prefix, last, n / 10);
  }

  /** One more digit multiplies the value by ten and adds the digit. */
  lemma DigitsValueSnoc(prefix: Bytes, d: byte, v: nat)
    requires DigitsValue(prefix) == Some(v) && IsDigit(d)
    ensures DigitsValue(prefix + [d]) == Some(v * 10 + (d as int - 48))
  {
    var s := prefix + [d];
    assert s[..|s| - 1] == prefix;
  }

  /** Printing a 64-bit number with `%d` and reading it back with `strconv.Atoi` gives the number. */
  lemma AtoiOfDecimal(n: int)
    requires MinInt64 <= n <= MaxInt64
    ensures Atoi(Ascii(Decimal(n))) == Some(n)
  {
    if n < 0 {
      AtoiOfNegative(-n);
    } else {
      AtoiOfNatural(n);
    }
  }

  lemma AtoiOfNatural(n: nat)
    requires n <= MaxInt64
    ensures Atoi(Ascii(DecimalNat(n))) == Some(n)
  {
    var b := Ascii(DecimalNat(n));
    AsciiDigits(DecimalNat(n));
    assert IsDigit(b[0]);
    DigitsOfDecimal(n);
  }

  lemma AtoiOfNegative(m: nat)
    requires 0 < m <= -MinInt64
    ensures Atoi(Ascii(Decimal(-(m as int)))) == Some(-(m as int))
  {
    var b := Ascii(Decimal(-(m as int)));
    AsciiAppend("-", DecimalNat(m));
    assert b[0] == Minus;
    assert b[1..] == Ascii(DecimalNat(m));
    DigitsOfDecimal(m);
  }

  // ---------------------------------------------------------------------------------------
  // Whitespace, prefixes and searching
  // ---------------------------------------------------------------------------------------

  /** The ASCII white space `strings.TrimSpace` removes: tab, newline, vertical tab, form feed, CR, space. */
  predicate IsSpace(b: byte) { b == 9 || b == 10 || b == 11 || b == 12 || b == 13 || b == 32 }

  function TrimLeft(s: Bytes): (r: Bytes)
    ensures |r| <= |s| && r == s[|s| - |r|..]
    ensures forall i :: 0 <= i < |s| - |r| ==> IsSpace(s[i])
    ensures |r| > 0 ==> !IsSpace(r[0])
  {
    if |s| > 0 && IsSpace(s[0]) then TrimLeft(s[1..]) else s
  }

  function TrimRight(s: Bytes): (r: Bytes)
    ensures |r| <= |s| && r == s[..|r|]
    ensures forall i :: |r| <= i < |s| ==> IsSpace(s[i])
    ensures |r| > 0 ==> !IsSpace(r[|r| - 1])
  {
    if |s| > 0 && IsSpace(s[|s| - 1]) then TrimRight(s[..|s| - 1]) else s
  }

  /** `strings.TrimSpace` / `bytes.TrimSpace` on ASCII white space. */
  function TrimSpace(s: Bytes): (r: Bytes)
  {
    TrimRight(TrimLeft(s))
  }

  /** What `TrimSpace` keeps is a slice of its input with the white space at both ends removed. */
  lemma TrimSpaceSlice(s: Bytes)
    ensures exists lo, hi :: (0 <= lo <= hi <= |s| && TrimSpace(s) == s[lo..hi]
      && (forall i :: 0 <= i < lo ==> IsSpace(s[i])) && (forall i :: hi <= i < |s| ==> IsSpace(s[i])))
    ensures TrimSpace(s) == [] || (!IsSpace(TrimSpace(s)[0]) && !IsSpace(TrimSpace(s)[|TrimSpace(s)| - 1]))
  {
    var lo, hi := TrimSpaceBounds(s);
    var r := TrimSpace(s);
    if r != [] {
      assert r[0] == TrimLeft(s)[0];
    }
  }

  /** Where the bytes `TrimSpace` keeps start and end. */
  lemma TrimSpaceBounds(s: Bytes) returns (lo: nat, hi: nat)
    ensures 0 <= lo <= hi <= |s| && TrimSpace(s) == s[lo..hi]
    ensures forall i :: 0 <= i < lo ==> IsSpace(s[i])
    ensures forall i :: hi <= i < |s| ==> IsSpace(s[i])
  {
    var l := TrimLeft(s);
    lo := |s| - |l|;
    var r := TrimRight(l);
    hi := lo + |r|;
    assert l == s[lo..];
    assert r == l[..|r|];
    assert r == s[lo..hi];
    forall i | hi <= i < |s| ensures IsSpace(s[i]) {
      assert s[i] == l[i - lo];
    }
  }

  /** Trimming a slice that starts and ends with non-space bytes, surrounded by spaces, gives the slice. */
  lemma TrimSpaceOf(pre: Bytes, mid: Bytes, post: Bytes)
    requires forall i :: 0 <= i < |pre| ==> IsSpace(pre[i])
    requires forall i :: 0 <= i < |post| ==> IsSpace(post[i])
    requires |mid| > 0 ==> !IsSpace(mid[0]) && !IsSpace(mid[|mid| - 1])
    requires mid == [] ==> post == []
    ensures TrimSpace(pre + mid + post) == mid
  {
    var rest := mid + post;
    if |mid| > 0 {
      assert rest[0] == mid[0];
    }
    TrimLeftOf(pre, rest);
    TrimRightOf(mid, post);
    SeqAssoc(pre, mid, post);
  }

  /** Concatenation is associative. */
  lemma SeqAssoc<T>(a: seq<T>, b: seq<T>, c: seq<T>)
    ensures a + (b + c) == (a + b) + c
    ensures a <= a + b
  {
  }

  lemma {:induction false} TrimLeftOf(pre: Bytes, rest: Bytes)
    requires forall i :: 0 <= i < |pre| ==> IsSpace(pre[i])
    requires |rest| > 0 ==> !IsSpace(rest[0])
    ensures TrimLeft(pre + rest) == rest
    decreases |pre|
  {
    if |pre| > 0 {
      assert (pre + rest)[1..] == pre[1..] + rest;
      TrimLeftOf(pre[1..], rest);
    }
  }

  lemma {:induction false} TrimRightOf(rest: Bytes, post: Bytes)
    requires forall i :: 0 <= i < |post| ==> IsSpace(post[i])
    requires |rest| > 0 ==> !IsSpace(rest[|rest| - 1])
    ensures TrimRight(rest + post) == rest
    decreases |post|
  {
    if |post| > 0 {
      assert (rest + post)[..|rest + post| - 1] == rest + post[..|post| - 1];
      TrimRightOf(rest, post[..|post| - 1]);
    }
  }

  predicate HasPrefix<T(==)>(s: seq<T>, p: seq<T>) { |p| <= |s| && s[..|p|] == p }

  /** `strings.CutPrefix`: the rest after `p` when `s` starts with `p`. */
  function CutPrefix(s: Bytes, p: Bytes): (r: Option<Bytes>)
    ensures r.Some? <==> HasPrefix(s, p)
    ensures r.Some? ==> s == p + r.value
  {
    if HasPrefix(s, p) then Some(s[|p|..]) else None
  }

  /** `pat` occurs in `s` at position `j`. */
  predicate MatchAt<T(==)>(s: seq<T>, pat: seq<T>, j: int)
  {
    0 <= j && j + |pat| <= |s| && s[j..j + |pat|] == pat
  }

  function IndexFrom(s: Bytes, pat: Bytes, i: nat): (r: Option<nat>)
    requires i <= |s|
    ensures r.Some? ==> (i <= r.value && MatchAt(s, pat, r.value)
      && forall j :: i <= j < r.value ==> !MatchAt(s, pat, j))
    ensures r.None? ==> forall j :: i <= j <= |s| ==> !MatchAt(s, pat, j)
    decreases |s| - i
  {
    if i + |pat| > |s| then None
    else if s[i..i + |pat|] == pat then Some(i)
    else IndexFrom(s, pat, i + 1)
  }

  /** `bytes.Index`: the first position where `pat` occurs in `s`. */
  function Index(s: Bytes, pat: Bytes): (r: Option<nat>)
    ensures r.Some? ==> MatchAt(s, pat, r.value) && forall j :: 0 <= j < r.value ==> !MatchAt(s, pat, j)
    ensures r.None? ==> forall j :: 0 <= j <= |s| ==> !MatchAt(s, pat, j)
  {
    IndexFrom(s, pat, 0)
  }

  /** A first occurrence inside `s` stays the first occurrence when more bytes are appended. */
  lemma IndexExtend(s: Bytes, t: Bytes, pat: Bytes)
    requires Index(s, pat).Some?
    ensures Index(s + t, pat) == Index(s, pat)
  {
    var k := Index(s, pat).value;
    assert (s + t)[k..k + |pat|] == s[k..k + |pat|];
    assert MatchAt(s + t, pat, k);
    forall j | 0 <= j < k ensures !MatchAt(s + t, pat, j) {
      assert !MatchAt(s, pat, j);
      assert (s + t)[j..j + |pat|] == s[j..j + |pat|];
    }
  }

  /** `strings.Split(s, sep)` for a non-empty separator. */
  function Split(s: Bytes, sep: Bytes): (r: seq<Bytes>)
    requires |sep| > 0
    ensures |r| > 0
    ensures Index(s, sep).None? ==> r == [s]
    decreases |s|
  {
    match Index(s, sep)
    case None => [s]
    case Some(i) => [s[..i]] + Split(s[i + |sep|..], sep)
  }

  // ---------------------------------------------------------------------------------------
  // Text helpers used by the debug stores
  // ---------------------------------------------------------------------------------------

  /** `strings.ToLower` on ASCII letters. */
  function Lower(s: string): (r: string)
    ensures |r| == |s|
    ensures forall i :: 0 <= i < |s| ==> r[i] == LowerChar(s[i])
  {
    seq(|s|, i requires 0 <= i < |s| => LowerChar(s[i]))
  }

  function LowerChar(c: char): char
  {
    if 'A' <= c <= 'Z' then (c as int + 32) as char else c
  }

  /** Reads raw bytes as text, one character per byte (Go's `string(b)` for ASCII content). */
  function AsText(b: Bytes): (s: string)
    ensures |s| == |b|
  {
    seq(|b|, i requires 0 <= i < |b| => b[i] as int as char)
  }

  /** `strings.Contains`. */
  predicate Contains(s: string, sub: string)
    decreases |s|
  {
    HasPrefix(s, sub) || (|s| > 0 && Contains(s[1..], sub))
  }

  /** `strings.Join`. */
  function Join(parts: seq<string>, sep: string): (r: string)
    ensures parts == [] ==> r == []
    ensures |parts| == 1 ==> r == parts[0]
  {
    if |parts| == 0 then [] else if |parts| == 1 then parts[0] else parts[0] + sep + Join(parts[1..], sep)
  }
}
