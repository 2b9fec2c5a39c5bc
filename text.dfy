/** The parts of Go's `strings` and `strconv` packages (and of JavaScript's `String.prototype.trim`)
    that the aggregator relies on, stated over `seq<char>` and, where Go counts bytes, over bytes. */
module Text {
  import opened Wrappers

  /** One byte of a UTF-8 encoded Go string. */
  type byte = b: int | 0 <= b < 256

  /** Go's `unicode.IsSpace`: the Latin-1 spaces and the other `White_Space` code points. */
  predicate IsGoSpace(c: char) {
    c == ' ' || c == '\t' || c == '\n' || c == '\U{0B}' || c == '\U{0C}' || c == '\r'
    || c == '\U{85}' || c == '\U{A0}' || c == '\U{1680}'
    || ('\U{2000}' <= c <= '\U{200A}')
    || c == '\U{2028}' || c == '\U{2029}' || c == '\U{202F}' || c == '\U{205F}' || c == '\U{3000}'
  }

  /** The characters JavaScript's `trim` removes: WhiteSpace (with U+FEFF and the Zs category)
      and LineTerminator. Unlike Go, U+0085 is not one of them and U+FEFF is. */
  predicate IsJsSpace(c: char) {
    c == ' ' || c == '\t' || c == '\n' || c == '\U{0B}' || c == '\U{0C}' || c == '\r'
    || c == '\U{A0}' || c == '\U{FEFF}' || c == '\U{1680}'
    || ('\U{2000}' <= c <= '\U{200A}')
    || c == '\U{2028}' || c == '\U{2029}' || c == '\U{202F}' || c == '\U{205F}' || c == '\U{3000}'
  }

  /** An ASCII space byte, as `strings.TrimSpace` sees it on its ASCII fast path. */
  predicate IsAsciiSpace(b: byte) {
    b == 0x20 || b == 0x09 || b == 0x0A || b == 0x0B || b == 0x0C || b == 0x0D
  }

  /** Drops the leading elements that `ws` accepts (`strings.TrimLeftFunc`). */
  function TrimLeft<T>(s: seq<T>, ws: T -> bool): (r: seq<T>)
    ensures |r| <= |s| && r == s[|s| - |r|..]
    ensures r != [] ==> !ws(r[0])
  {
    if s != [] && ws(s[0]) then TrimLeft(s[1..], ws) else s
  }

  /** Drops the trailing elements that `ws` accepts (`strings.TrimRightFunc`). */
  function TrimRight<T>(s: seq<T>, ws: T -> bool): (r: seq<T>)
    ensures |r| <= |s| && r == s[..|r|]
    ensures r != [] ==> !ws(r[|r| - 1])
  {
    if s != [] && ws(s[|s| - 1]) then TrimRight(s[..|s| - 1], ws) else s
  }

  /** `strings.TrimFunc`: right trim of the left trim. */
  function Trim<T>(s: seq<T>, ws: T -> bool): (r: seq<T>)
    ensures |r| <= |s|
    ensures r != [] ==> !ws(r[0]) && !ws(r[|r| - 1])
  {
    TrimRight(TrimLeft(s, ws), ws)
  }

  /** Everything the left trim dropped is white space. */
  lemma {:induction false} TrimLeftDropsOnlySpace<T>(s: seq<T>, ws: T -> bool)
    ensures forall k :: 0 <= k < |s| - |TrimLeft(s, ws)| ==> ws(s[k])
  {
    if s != [] && ws(s[0]) {
      TrimLeftDropsOnlySpace(s[1..], ws);
      assert forall k :: 1 <= k < |s| ==> s[k] == s[1..][k - 1];
    }
  }

  /** Everything the right trim dropped is white space. */
  lemma {:induction false} TrimRightDropsOnlySpace<T>(s: seq<T>, ws: T -> bool)
    ensures forall k :: |TrimRight(s, ws)| <= k < |s| ==> ws(s[k])
  {
    if s != [] && ws(s[|s| - 1]) {
      TrimRightDropsOnlySpace(s[..|s| - 1], ws);
    }
  }

  /** Only white space lies outside `s[i..j]`. */
  predicate SpaceAround<T>(s: seq<T>, ws: T -> bool, i: int, j: int) {
    && 0 <= i <= j <= |s|
    && (forall k :: 0 <= k < i ==> ws(s[k]))
    && (forall k :: j <= k < |s| ==> ws(s[k]))
  }

  /** The trim is a slice of the input with only white space around it. */
  lemma TrimSlice<T>(s: seq<T>, ws: T -> bool)
    ensures exists i, j :: SpaceAround(s, ws, i, j) && Trim(s, ws) == s[i..j]
  {
    var left := TrimLeft(s, ws);
    var i := |s| - |left|;
    var r := Trim(s, ws);
    TrimLeftDropsOnlySpace(s, ws);
    TrimRightDropsOnlySpace(left, ws);
    assert forall k :: i + |r| <= k < |s| ==> s[k] == left[k - i];
    assert r == s[i..i + |r|];
    assert SpaceAround(s, ws, i, i + |r|);
  }

  /** The trim is empty exactly when the input is all white space. */
  lemma TrimEmpty<T>(s: seq<T>, ws: T -> bool)
    ensures Trim(s, ws) == [] <==> forall k :: 0 <= k < |s| ==> ws(s[k])
  {
    TrimSlice(s, ws);
    var i, j :| SpaceAround(s, ws, i, j) && Trim(s, ws) == s[i..j];
    if Trim(s, ws) != [] {
      assert !ws(s[i]);
    }
  }

  /** A sequence that neither starts nor ends with white space is its own trim. */
  lemma TrimKeeps<T>(s: seq<T>, ws: T -> bool)
    requires s != [] ==> !ws(s[0]) && !ws(s[|s| - 1])
    ensures Trim(s, ws) == s
  {
  }

  /** `strings.TrimSpace` on a string. */
  function TrimSpace(s: string): string {
    Trim(s, IsGoSpace)
  }

  /** `strings.TrimSpace` on the bytes of a string, for ASCII white space. */
  function TrimSpaceBytes(s: seq<byte>): seq<byte> {
    Trim(s, IsAsciiSpace)
  }

  /** JavaScript's `String.prototype.trim`. */
  function JsTrim(s: string): string {
    Trim(s, IsJsSpace)
  }

  /** `strings.HasPrefix`. */
  predicate HasPrefix(s: string, prefix: string) {
    |prefix| <= |s| && s[..|prefix|] == prefix
  }

  /** `strings.TrimPrefix`. */
  function TrimPrefix(s: string, prefix: string): (r: string)
    ensures HasPrefix(s, prefix) ==> s == prefix + r
    ensures !HasPrefix(s, prefix) ==> r == s
  {
    if HasPrefix(s, prefix) then s[|prefix|..] else s
  }

  /** `sub` occurs in `s` starting at index `i`. */
  predicate OccursAt(s: string, sub: string, i: int) {
    0 <= i && i + |sub| <= |s| && s[i..i + |sub|] == sub
  }

  /** `strings.Contains`. */
  predicate Contains(s: string, sub: string) {
    exists i :: 0 <= i <= |s| - |sub| && OccursAt(s, sub, i)
  }

  /** The index of the last occurrence of `x` in `s`, or -1 (`strings.LastIndex` for a one-byte needle). */
  function LastIndexOf<T(==)>(s: seq<T>, x: T): (r: int)
    ensures -1 <= r < |s|
    ensures r >= 0 ==> s[r] == x
    ensures forall k :: r < k < |s| ==> s[k] != x
  {
    if s == [] then -1
    else if s[|s| - 1] == x then |s| - 1
    else LastIndexOf(s[..|s| - 1], x)
  }

  /** ASCII lower-casing of one character; every other character is left as it is. */
  function LowerChar(c: char): char {
    if 'A' <= c <= 'Z' then (c as int + 32) as char else c
  }

  /** Lower-casing of a string, one character at a time. */
  function ToLower(s: string): (r: string)
    ensures |r| == |s| && forall k :: 0 <= k < |s| ==> r[k] == LowerChar(s[k])
  {
    seq(|s|, k requires 0 <= k < |s| => LowerChar(s[k]))
  }

  /** The decimal digits of a natural number, as `fmt` prints them. */
  function NatToString(n: nat): (r: string)
    ensures r != []
  {
    var d := ['0' + (n % 10) as char];
    if n < 10 then d else NatToString(n / 10) + d
  }

  /** `fmt.Sprintf("%d", n)`. */
  function IntToString(n: int): string {
    if n < 0 then "-" + NatToString(-n) else NatToString(n)
  }

  predicate IsDigit(c: char) {
    '0' <= c <= '9'
  }

  /** The value of a string of decimal digits. */
  function DigitsValue(s: string): nat
    requires forall k :: 0 <= k < |s| ==> IsDigit(s[k])
  {
    if s == [] then 0
    else
      assert IsDigit(s[|s| - 1]);
      DigitsValue(s[..|s| - 1]) * 10 + (s[|s| - 1] as int - '0' as int)
  }

  const MinInt64: int := -0x8000_0000_0000_0000
  const MaxInt64: int := 0x7FFF_FFFF_FFFF_FFFF

  /** `strconv.Atoi` on a 64-bit platform: an optional sign, at least one decimal digit and
      nothing else, with the value in the range of `int`; `None` stands for the returned error. */
  function Atoi(s: string): (r: Option<int>)
    ensures r.Some? ==> MinInt64 <= r.value <= MaxInt64
    ensures r.Some? ==> s != [] && (IsDigit(s[0]) || s[0] == '+' || s[0] == '-')
  {
    var neg := s != [] && s[0] == '-';
    var digits := if s != [] && (s[0] == '+' || s[0] == '-') then s[1..] else s;
    if digits == [] || exists k :: 0 <= k < |digits| && !IsDigit(digits[k]) then None
    else
      var n: int := DigitsValue(digits);
      var v := if neg then -n else n;
      if MinInt64 <= v <= MaxInt64 then Some(v) else None
  }

  /** Every character `NatToString` produces is a digit, and the digits read back as `n`. */
  lemma {:induction false} NatToStringDigits(n: nat)
    ensures forall k :: 0 <= k < |NatToString(n)| ==> IsDigit(NatToString(n)[k])
    ensures DigitsValue(NatToString(n)) == n
  {
    if n >= 10 {
      NatToStringDigits(n / 10);
      var s, d := NatToString(n), ['0' + (n % 10) as char];
      assert s == NatToString(n / 10) + d;
      assert s[..|s| - 1] == NatToString(n / 10);
    }
  }

  /** `strconv.Atoi` reads back what `%d` prints, for every value of `int64`. */
  lemma AtoiRoundTrip(i: int)
    requires MinInt64 <= i <= MaxInt64
    ensures Atoi(IntToString(i)) == Some(i)
  {
    var m: nat := if i < 0 then -i else i;
    NatToStringDigits(m);
    var s := IntToString(i);
    if i < 0 {
      assert s[1..] == NatToString(m);
    } else {
      assert IsDigit(s[0]);
    }
  }
}
