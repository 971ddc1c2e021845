/** Shared vocabulary of the model: optional values, JavaScript truthiness and
    the few string operations the application relies on (`trim`,
    `toLowerCase`, `includes`, the decimal text of a number). */
module Common {

  datatype Option<T> = None | Some(value: T) {
    function GetOr(default: T): T {
      if Some? then value else default
    }
  }

  /** A JavaScript property that is missing (`undefined`: `Absent`), `null` (`Nil`), or holds a value. */
  datatype Nullable<T> = Absent | Nil | Defined(value: T)

  /** What an asynchronous call that only succeeds or throws hands back. */
  datatype Outcome<E> = Pass | Fail(error: E)

  datatype Result<T, E> = Ok(value: T) | Err(error: E)

  /** Milliseconds since the epoch, in device-local time. */
  type Time = int

  // ---------------------------------------------------------------------
  // Truthiness

  /** JavaScript truthiness of a string: only `''` is falsy. */
  predicate Truthy(s: string) {
    s != ""
  }

  /** Truthiness of an optional string (`undefined` is falsy). */
  predicate Present(o: Option<string>) {
    o.Some? && o.value != ""
  }

  /** `a || b` for two strings. */
  function OrElse(a: string, b: string): string {
    if a != "" then a else b
  }

  /** `o || b` for an optional string and a string. */
  function OptOr(o: Option<string>, b: string): string {
    if Present(o) then o.value else b
  }

  // ---------------------------------------------------------------------
  // String.prototype.trim

  /** The characters `trim` removes: ECMAScript WhiteSpace and LineTerminator. */
  predicate IsSpace(c: char) {
    || c == '\t' || c == '\n' || c == '\U{000B}' || c == '\U{000C}' || c == '\r'
    || c == ' ' || c == '\U{00A0}' || c == '\U{1680}'
    || ('\U{2000}' <= c <= '\U{200A}')
    || c == '\U{2028}' || c == '\U{2029}' || c == '\U{202F}' || c == '\U{205F}'
    || c == '\U{3000}' || c == '\U{FEFF}'
  }

  /** Every character of `s` is white space (so `s.trim()` is falsy). */
  predicate AllSpace(s: string) {
    forall i :: 0 <= i < |s| ==> IsSpace(s[i])
  }

  /** Neither the first nor the last character is white space. */
  predicate Unpadded(s: string) {
    s == "" || (!IsSpace(s[0]) && !IsSpace(s[|s| - 1]))
  }

  function TrimStart(s: string): (r: string)
    ensures |r| <= |s|
    ensures r == "" || !IsSpace(r[0])
  {
    if |s| > 0 && IsSpace(s[0]) then TrimStart(s[1..]) else s
  }

  /** `TrimStart` cuts a prefix of white space and nothing else. */
  lemma {:induction false} TrimStartCuts(s: string)
    ensures var r := TrimStart(s); r == s[|s| - |r|..] && AllSpace(s[..|s| - |r|])
  {
    if |s| > 0 && IsSpace(s[0]) {
      var r := TrimStart(s[1..]);
      TrimStartCuts(s[1..]);
      assert s[1..][..|s| - 1 - |r|] == s[1..|s| - |r|];
      assert s[..|s| - |r|] == [s[0]] + s[1..|s| - |r|];
    }
  }

  function TrimEnd(s: string): (r: string)
    ensures |r| <= |s|
    ensures r == "" || !IsSpace(r[|r| - 1])
  {
    if |s| > 0 && IsSpace(s[|s| - 1]) then TrimEnd(s[..|s| - 1]) else s
  }

  /** `TrimEnd` cuts a suffix of white space and nothing else. */
  lemma {:induction false} TrimEndCuts(s: string)
    ensures var r := TrimEnd(s); r == s[..|r|] && AllSpace(s[|r|..])
  {
    if |s| > 0 && IsSpace(s[|s| - 1]) {
      var r := TrimEnd(s[..|s| - 1]);
      TrimEndCuts(s[..|s| - 1]);
      assert s[..|s| - 1][|r|..] + [s[|s| - 1]] == s[|r|..];
    }
  }

  /** `s.trim()`: a contiguous part of `s` that neither starts nor ends with
      white space, with only white space cut away around it. */
  function Trim(s: string): (r: string)
    ensures |r| <= |s|
    ensures Unpadded(r)
  {
    TrimEndCuts(TrimStart(s));
    TrimEnd(TrimStart(s))
  }

  /** A string that neither starts nor ends with white space is its own trim. */
  lemma TrimUnpadded(s: string)
    requires Unpadded(s)
    ensures Trim(s) == s
  {
    assert TrimStart(s) == s;
  }

  /** `!s.trim()`: the string is empty or white space only. */
  predicate IsBlank(s: string) {
    AllSpace(s)
  }

  /** A string is blank exactly when `trim` leaves nothing of it. */
  lemma BlankIffTrimEmpty(s: string)
    ensures IsBlank(s) <==> Trim(s) == ""
  {
    var t := TrimStart(s);
    TrimStartCuts(s);
    TrimEndCuts(t);
    if Trim(s) == "" {
      assert s[..|s|] == s;
    } else {
      var r := Trim(s);
      assert r[0] == s[|s| - |t|];
    }
  }

  /** `trim` removes white space at both ends and nothing else: the result
      is the part of `s` between a blank prefix and a blank suffix. */
  lemma TrimCuts(s: string)
    ensures var r := Trim(s);
      exists i :: 0 <= i <= i + |r| <= |s| && r == s[i..i + |r|] && AllSpace(s[..i]) && AllSpace(s[i + |r|..])
  {
    var t := TrimStart(s);
    var r := Trim(s);
    TrimStartCuts(s);
    TrimEndCuts(t);
    var i := |s| - |t|;
    assert t == s[i..] && r == t[..|r|];
    assert r == s[i..i + |r|];
    assert s[i + |r|..] == t[|r|..];
    assert 0 <= i <= i + |r| <= |s| && r == s[i..i + |r|] && AllSpace(s[..i]) && AllSpace(s[i + |r|..]);
  }

  /** Trimming a trimmed string changes nothing. */
  lemma TrimIdempotent(s: string)
    ensures Trim(Trim(s)) == Trim(s)
  {
    TrimUnpadded(Trim(s));
  }

  // ---------------------------------------------------------------------
  // String.prototype.length

  /** The UTF-16 code units of one character: two (a surrogate pair) above
      U+FFFF, one otherwise. */
  function CodeUnits(c: char): nat {
    if c as int > 0xFFFF then 2 else 1
  }

  /** `s.length`: the number of UTF-16 code units of `s`, between one and
      two per character. */
  function Utf16Length(s: string): (n: nat)
    ensures |s| <= n <= 2 * |s|
  {
    if s == [] then 0 else CodeUnits(s[0]) + Utf16Length(s[1..])
  }

  /** The length of a concatenation is the sum of the lengths. */
  lemma {:induction false} Utf16LengthAppend(a: string, b: string)
    ensures Utf16Length(a + b) == Utf16Length(a) + Utf16Length(b)
  {
    if a != [] {
      assert (a + b)[1..] == a[1..] + b;
      Utf16LengthAppend(a[1..], b);
    } else {
      assert a + b == b;
    }
  }

  /** Without characters above U+FFFF, the length counts characters. */
  lemma {:induction false} Utf16LengthBasic(s: string)
    requires forall i :: 0 <= i < |s| ==> s[i] as int <= 0xFFFF
    ensures Utf16Length(s) == |s|
  {
    if s != [] {
      assert forall i :: 0 <= i < |s[1..]| ==> s[1..][i] == s[i + 1];
      Utf16LengthBasic(s[1..]);
    }
  }

  // ---------------------------------------------------------------------
  // String.prototype.toLowerCase and String.prototype.includes

  /** Case folding of one character (Latin capital letters only). */
  function LowerChar(c: char): (r: char)
    ensures !('A' <= r <= 'Z')
    ensures !('A' <= c <= 'Z') ==> r == c
  {
    if 'A' <= c <= 'Z' then (c as int + 32) as char else c
  }

  function ToLower(s: string): (r: string)
    ensures |r| == |s|
    ensures forall i :: 0 <= i < |s| ==> r[i] == LowerChar(s[i])
  {
    seq(|s|, i requires 0 <= i < |s| => LowerChar(s[i]))
  }

  /** `s.includes(q)`: `q` occurs in `s` at some position. */
  predicate Includes(s: string, q: string) {
    exists i :: 0 <= i <= |s| - |q| && q <= s[i..]
  }

  /** `q` cannot occur in `s` when one of its characters does not. */
  lemma MissingCharExcludes(s: string, q: string, c: char)
    requires c in q && c !in s
    ensures !Includes(s, q)
  {
  }

  /** A value caught by a `catch` clause, as the screens inspect it: its
      `code` and `message` properties, each possibly missing. */
  datatype Thrown = Thrown(code: Option<string>, message: Option<string>)

  /** `error.message?.includes(s)`: false when there is no message. */
  predicate MessageHas(e: Thrown, s: string) {
    e.message.Some? && Includes(e.message.value, s)
  }

  /** A cancelled Google account picker, told by its message. */
  predicate Cancelled(e: Thrown) {
    MessageHas(e, "cancelled") || MessageHas(e, "cancel")
  }

  // ---------------------------------------------------------------------
  // Decimal text of integers: `n.toString()` and its parse

  function DigitChar(d: nat): (c: char)
    requires d < 10
    ensures '0' <= c <= '9'
  {
    ('0' as int + d) as char
  }

  /** The value of one decimal digit; anything else reads as 0. */
  function DigitValue(c: char): (d: nat)
    ensures d < 10
  {
    if '0' <= c <= '9' then c as int - '0' as int else 0
  }

  predicate AllDigits(s: string) {
    forall i :: 0 <= i < |s| ==> '0' <= s[i] <= '9'
  }

  function NatToString(n: nat): (s: string)
    ensures |s| > 0 && AllDigits(s)
    decreases n
  {
    if n < 10 then [DigitChar(n)] else NatToString(n / 10) + [DigitChar(n % 10)]
  }

  function DigitsValue(s: string): nat
    decreases |s|
  {
    if s == [] then 0 else DigitsValue(s[..|s| - 1]) * 10 + DigitValue(s[|s| - 1])
  }

  lemma {:induction false} NatToStringRoundTrip(n: nat)
    ensures DigitsValue(NatToString(n)) == n
    decreases n
  {
    var s := NatToString(n);
    if n < 10 {
      assert s[..|s| - 1] == [];
    } else {
      NatToStringRoundTrip(n / 10);
      assert s[..|s| - 1] == NatToString(n / 10);
    }
  }

  /** `n.toString()` for an integer. */
  function IntToString(i: int): (s: string)
    ensures |s| > 0
  {
    if i < 0 then "-" + NatToString(-i) else NatToString(i)
  }

  /** The inverse of `IntToString`, total: characters other than digits read as 0. */
  function ParseInt(s: string): int {
    if |s| > 0 && s[0] == '-' then -(DigitsValue(s[1..]) as int) else DigitsValue(s)
  }

  lemma IntToStringRoundTrip(i: int)
    ensures ParseInt(IntToString(i)) == i
  {
    if i < 0 {
      NatToStringRoundTrip(-i);
      assert IntToString(i)[1..] == NatToString(-i);
    } else {
      NatToStringRoundTrip(i);
    }
  }

  lemma IntToStringInjective(a: int, b: int)
    requires IntToString(a) == IntToString(b)
    ensures a == b
  {
    IntToStringRoundTrip(a);
    IntToStringRoundTrip(b);
  }

  // ---------------------------------------------------------------------
  // Timestamp strings: `date.toISOString()` and `new Date(s)`.
  // The text form is an injective encoding of the instant; the model uses the
  // signed decimal number of milliseconds for it.

  function TimeToString(t: Time): string {
    IntToString(t)
  }

  function ParseTime(s: string): Time {
    ParseInt(s)
  }

  /** A string that `toISOString` could have produced. */
  predicate IsTimeString(s: string) {
    TimeToString(ParseTime(s)) == s
  }

  lemma TimeStringRoundTrip(t: Time)
    ensures ParseTime(TimeToString(t)) == t
    ensures IsTimeString(TimeToString(t))
  {
    IntToStringRoundTrip(t);
  }

  // ---------------------------------------------------------------------
  // Array.prototype.filter

  /** `s.filter(keep)`: the elements `keep` accepts, in their order
      (`FilterAppend`, `FilterSingle`), each with its multiplicity
      (`FilterCounts`). */
  function Filter<T(==,!new)>(s: seq<T>, keep: T -> bool): (r: seq<T>)
    ensures |r| <= |s|
  {
    if s == [] then [] else
      var rest := Filter(s[..|s| - 1], keep);
      if keep(s[|s| - 1]) then rest + [s[|s| - 1]] else rest
  }

  /** Each accepted element keeps its multiplicity and every other one is gone. */
  lemma {:induction false} FilterCounts<T(!new)>(s: seq<T>, keep: T -> bool)
    ensures forall x :: multiset(Filter(s, keep))[x] == if keep(x) then multiset(s)[x] else 0
    decreases |s|
  {
    if s != [] {
      var last := s[|s| - 1];
      FilterCounts(s[..|s| - 1], keep);
      assert s == s[..|s| - 1] + [last];
    }
  }

  /** Filtering never adds or alters an element. */
  lemma FilterSubset<T(!new)>(s: seq<T>, keep: T -> bool)
    ensures multiset(Filter(s, keep)) <= multiset(s)
    ensures forall x :: x in Filter(s, keep) <==> x in s && keep(x)
  {
    var r := Filter(s, keep);
    FilterCounts(s, keep);
    forall x
      ensures x in r <==> x in s && keep(x)
    {
      assert x in r <==> x in multiset(r);
      assert x in s <==> x in multiset(s);
    }
  }

  /** Filtering keeps the order: the filter of a concatenation is the
      concatenation of the filters. */
  lemma {:induction false} FilterAppend<T(!new)>(a: seq<T>, b: seq<T>, keep: T -> bool)
    ensures Filter(a + b, keep) == Filter(a, keep) + Filter(b, keep)
    decreases |b|
  {
    if b == [] {
      assert a + b == a;
    } else {
      var init, last := b[..|b| - 1], b[|b| - 1];
      assert b == init + [last];
      assert a + b == (a + init) + [last];
      FilterSnoc(a + init, last, keep);
      FilterSnoc(init, last, keep);
      FilterAppend(a, init, keep);
    }
  }

  /** One more element at the end is kept at the end, if accepted. */
  lemma FilterSnoc<T(!new)>(s: seq<T>, x: T, keep: T -> bool)
    ensures Filter(s + [x], keep) == if keep(x) then Filter(s, keep) + [x] else Filter(s, keep)
  {
    assert (s + [x])[..|s|] == s;
  }

  /** A one-element list is kept exactly when its element is accepted. */
  lemma FilterSingle<T(!new)>(x: T, keep: T -> bool)
    ensures Filter([x], keep) == if keep(x) then [x] else []
  {
    assert [x][..0] == [];
  }

  /** A weaker test keeps at least as many elements. */
  lemma {:induction false} FilterLengthMono<T(!new)>(s: seq<T>, p: T -> bool, q: T -> bool)
    requires forall x :: p(x) ==> q(x)
    ensures |Filter(s, p)| <= |Filter(s, q)|
  {
    if s != [] {
      FilterLengthMono(s[..|s| - 1], p, q);
    }
  }

  /** A test and its negation share out the elements between them. */
  lemma {:induction false} FilterComplement<T(!new)>(s: seq<T>, p: T -> bool, q: T -> bool)
    requires forall x :: q(x) == !p(x)
    ensures |Filter(s, p)| + |Filter(s, q)| == |s|
  {
    if s != [] {
      FilterComplement(s[..|s| - 1], p, q);
    }
  }
}
