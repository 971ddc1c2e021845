/** The JSON text (RFC 8259) that the application keeps in device storage:
    `JSON.stringify` of an array of flat objects whose member values are
    strings, booleans or `null`, and the `JSON.parse` that reads it back. */
module Json {
  import opened Common

  datatype Scalar = JNull | JBool(b: bool) | JStr(s: string)

  type Member = (string, Scalar)

  /** An object, as its members in insertion order. */
  type Object = seq<Member>

  // ---------------------------------------------------------------------
  // JSON.stringify (no white space between tokens)

  function HexDigit(d: nat): char
    requires d < 16
  {
    if d < 10 then ('0' as int + d) as char else ('a' as int + d - 10) as char
  }

  /** The text of one character inside a string literal: quote and reverse
      solidus are escaped, control characters use their short escape or
      `\u00XX`, everything else stands for itself. */
  function EscapeChar(c: char): string {
    if c == '"' then ['\\', '"']
    else if c == '\\' then ['\\', '\\']
    else if c == '\U{0008}' then ['\\', 'b']
    else if c == '\t' then ['\\', 't']
    else if c == '\n' then ['\\', 'n']
    else if c == '\U{000C}' then ['\\', 'f']
    else if c == '\r' then ['\\', 'r']
    else if (c as int) < 0x20 then ['\\', 'u', '0', '0', HexDigit(c as int / 16), HexDigit(c as int % 16)]
    else [c]
  }

  function Escape(s: string): string
    decreases |s|
  {
    if s == [] then [] else EscapeChar(s[0]) + Escape(s[1..])
  }

  function Quote(s: string): string {
    "\"" + Escape(s) + "\""
  }

  function ScalarText(v: Scalar): string {
    match v
    case JNull => "null"
    case JBool(b) => if b then "true" else "false"
    case JStr(s) => Quote(s)
  }

  function MemberText(m: Member): string {
    Quote(m.0) + ":" + ScalarText(m.1)
  }

  /** The members separated by commas. */
  function MembersText(ms: Object): string
    decreases |ms|
  {
    if ms == [] then ""
    else if |ms| == 1 then MemberText(ms[0])
    else MemberText(ms[0]) + "," + MembersText(ms[1..])
  }

  function ObjectText(o: Object): string {
    "{" + MembersText(o) + "}"
  }

  /** The objects separated by commas. */
  function ObjectsText(os: seq<Object>): string
    decreases |os|
  {
    if os == [] then ""
    else if |os| == 1 then ObjectText(os[0])
    else ObjectText(os[0]) + "," + ObjectsText(os[1..])
  }

  /** `JSON.stringify(os)`. */
  function Stringify(os: seq<Object>): string {
    "[" + ObjectsText(os) + "]"
  }

  // ---------------------------------------------------------------------
  // JSON.parse. Each parser returns what it read and the text after it.

  function HexValue(c: char): Option<nat> {
    if '0' <= c <= '9' then Some(c as int - '0' as int)
    else if 'a' <= c <= 'f' then Some(c as int - 'a' as int + 10)
    else if 'A' <= c <= 'F' then Some(c as int - 'A' as int + 10)
    else None
  }

  /** The character an escape sequence stands for; `s` follows the reverse solidus. */
  function ParseEscape(s: string): (r: Option<(char, string)>)
    ensures r.Some? ==> |r.value.1| < |s|
  {
    if s == [] then None
    else if s[0] == '"' || s[0] == '\\' || s[0] == '/' then Some((s[0], s[1..]))
    else if s[0] == 'b' then Some(('\U{0008}', s[1..]))
    else if s[0] == 'f' then Some(('\U{000C}', s[1..]))
    else if s[0] == 'n' then Some(('\n', s[1..]))
    else if s[0] == 'r' then Some(('\r', s[1..]))
    else if s[0] == 't' then Some(('\t', s[1..]))
    else if s[0] == 'u' && |s| >= 5 then
      match (HexValue(s[1]), HexValue(s[2]), HexValue(s[3]), HexValue(s[4]))
      case (Some(a), Some(b), Some(c), Some(d)) =>
        var v := ((a * 16 + b) * 16 + c) * 16 + d;
        if 0xD800 <= v < 0xE000 then None else Some((v as char, s[5..]))
      case _ => None
    else None
  }

  function Cons(c: char, r: Option<(string, string)>): Option<(string, string)> {
    match r
    case None => None
    case Some((t, rest)) => Some(([c] + t, rest))
  }

  /** The rest of a string literal after its opening quote. */
  function ParseStringTail(s: string): (r: Option<(string, string)>)
    ensures r.Some? ==> |r.value.1| < |s|
    decreases |s|
  {
    if s == [] then None
    else if s[0] == '"' then Some(([], s[1..]))
    else if s[0] == '\\' then
      match ParseEscape(s[1..])
      case None => None
      case Some((c, rest)) => Cons(c, ParseStringTail(rest))
    else if (s[0] as int) < 0x20 then None
    else Cons(s[0], ParseStringTail(s[1..]))
  }

  function ParseString(s: string): (r: Option<(string, string)>)
    ensures r.Some? ==> |r.value.1| < |s|
  {
    if s != [] && s[0] == '"' then ParseStringTail(s[1..]) else None
  }

  function ParseScalar(s: string): (r: Option<(Scalar, string)>)
    ensures r.Some? ==> |r.value.1| < |s|
  {
    if "null" <= s then Some((JNull, s[4..]))
    else if "true" <= s then Some((JBool(true), s[4..]))
    else if "false" <= s then Some((JBool(false), s[5..]))
    else match ParseString(s)
      case None => None
      case Some((t, rest)) => Some((JStr(t), rest))
  }

  function ParseMember(s: string): (r: Option<(Member, string)>)
    ensures r.Some? ==> |r.value.1| < |s|
  {
    match ParseString(s)
    case None => None
    case Some((key, rest)) =>
      if rest != [] && rest[0] == ':' then
        match ParseScalar(rest[1..])
        case None => None
        case Some((v, rest')) => Some(((key, v), rest'))
      else None
  }

  /** One or more members, then the closing brace. */
  function ParseMembers(s: string): (r: Option<(Object, string)>)
    ensures r.Some? ==> |r.value.1| < |s|
    decreases |s|
  {
    match ParseMember(s)
    case None => None
    case Some((m, rest)) =>
      if rest != [] && rest[0] == '}' then Some(([m], rest[1..]))
      else if rest != [] && rest[0] == ',' then
        match ParseMembers(rest[1..])
        case None => None
        case Some((ms, rest')) => Some(([m] + ms, rest'))
      else None
  }

  function ParseObject(s: string): (r: Option<(Object, string)>)
    ensures r.Some? ==> |r.value.1| < |s|
  {
    if "{}" <= s then Some(([], s[2..]))
    else if s != [] && s[0] == '{' then ParseMembers(s[1..])
    else None
  }

  /** One or more objects, then the closing bracket. */
  function ParseObjects(s: string): (r: Option<(seq<Object>, string)>)
    ensures r.Some? ==> |r.value.1| < |s|
    decreases |s|
  {
    match ParseObject(s)
    case None => None
    case Some((o, rest)) =>
      if rest != [] && rest[0] == ']' then Some(([o], rest[1..]))
      else if rest != [] && rest[0] == ',' then
        match ParseObjects(rest[1..])
        case None => None
        case Some((os, rest')) => Some(([o] + os, rest'))
      else None
  }

  /** `JSON.parse(s)`, for text holding an array of flat objects; `None` is
      the `SyntaxError` it throws on anything else. */
  function Parse(s: string): Option<seq<Object>> {
    if s == "[]" then Some([])
    else if s != [] && s[0] == '[' then
      match ParseObjects(s[1..])
      case Some((os, rest)) => if rest == [] then Some(os) else None
      case None => None
    else None
  }

  // ---------------------------------------------------------------------
  // Reading members back (`obj.key`; with repeated keys the last one wins)

  function Lookup(o: Object, key: string): Option<Scalar>
    decreases |o|
  {
    if o == [] then None
    else if o[|o| - 1].0 == key then Some(o[|o| - 1].1)
    else Lookup(o[..|o| - 1], key)
  }

  // ---------------------------------------------------------------------
  // Building objects member by member, and reading typed members back

  /** Appends a member; `JSON.stringify` keeps the property order. */
  function Put(o: Object, key: string, v: Scalar): Object {
    o + [(key, v)]
  }

  /** Appends a member only when the property is defined (`undefined` is skipped). */
  function PutOpt(o: Object, key: string, v: Option<string>): Object {
    if v.Some? then Put(o, key, JStr(v.value)) else o
  }

  function PutNullable(o: Object, key: string, v: Nullable<string>): Object {
    match v
    case Absent => o
    case Nil => Put(o, key, JNull)
    case Defined(s) => Put(o, key, JStr(s))
  }

  function GetStr(o: Object, key: string): Option<string> {
    match Lookup(o, key)
    case Some(JStr(s)) => Some(s)
    case _ => None
  }

  function GetBool(o: Object, key: string): Option<bool> {
    match Lookup(o, key)
    case Some(JBool(b)) => Some(b)
    case _ => None
  }

  /** An optional string property: `Some(None)` when it is missing. */
  function GetOptStr(o: Object, key: string): Option<Option<string>> {
    match Lookup(o, key)
    case None => Some(None)
    case Some(JStr(s)) => Some(Some(s))
    case _ => None
  }

  function GetNullable(o: Object, key: string): Option<Nullable<string>> {
    match Lookup(o, key)
    case None => Some(Absent)
    case Some(JNull) => Some(Nil)
    case Some(JStr(s)) => Some(Defined(s))
    case _ => None
  }

  lemma LookupPut(o: Object, k: string, v: Scalar, key: string)
    ensures Lookup(Put(o, k, v), key) == if k == key then Some(v) else Lookup(o, key)
  {
    assert Put(o, k, v)[..|o|] == o;
  }

  lemma LookupPutOpt(o: Object, k: string, v: Option<string>, key: string)
    ensures Lookup(PutOpt(o, k, v), key) == if k == key && v.Some? then Some(JStr(v.value)) else Lookup(o, key)
  {
    if v.Some? {
      LookupPut(o, k, JStr(v.value), key);
    }
  }

  lemma LookupPutNullable(o: Object, k: string, v: Nullable<string>, key: string)
    ensures Lookup(PutNullable(o, k, v), key) ==
      if k == key && v.Nil? then Some(JNull)
      else if k == key && v.Defined? then Some(JStr(v.value))
      else Lookup(o, key)
  {
    match v
    case Absent =>
    case Nil => LookupPut(o, k, JNull, key);
    case Defined(s) => LookupPut(o, k, JStr(s), key);
  }

  function OptScalar(v: Option<string>): Option<Scalar> {
    if v.Some? then Some(JStr(v.value)) else None
  }

  function NullableScalar(v: Nullable<string>): Option<Scalar> {
    match v
    case Absent => None
    case Nil => Some(JNull)
    case Defined(s) => Some(JStr(s))
  }

  // ---------------------------------------------------------------------
  // Round trip: JSON.parse(JSON.stringify(x)) is x

  lemma HexRoundTrip(d: nat)
    requires d < 16
    ensures HexValue(HexDigit(d)) == Some(d)
  {
  }

  lemma {:induction false} EscapeCharStep(c: char, tail: string)
    ensures ParseStringTail(EscapeChar(c) + tail) == Cons(c, ParseStringTail(tail))
  {
    var s := EscapeChar(c) + tail;
    if c == '"' || c == '\\' || c == '\U{0008}' || c == '\t' || c == '\n' || c == '\U{000C}' || c == '\r' {
      assert s[0] == '\\' && s[1..] == [EscapeChar(c)[1]] + tail;
    } else if (c as int) < 0x20 {
      var hi, lo := c as int / 16, c as int % 16;
      HexRoundTrip(hi);
      HexRoundTrip(lo);
      assert s[0] == '\\' && s[1..] == ['u', '0', '0', HexDigit(hi), HexDigit(lo)] + tail;
      assert s[1..][5..] == tail;
    } else {
      assert s[0] == c && s[1..] == tail;
    }
  }

  lemma {:induction false} EscapeRoundTrip(t: string, rest: string)
    ensures ParseStringTail(Escape(t) + "\"" + rest) == Some((t, rest))
    decreases |t|
  {
    if t == [] {
      assert Escape(t) + "\"" + rest == "\"" + rest;
    } else {
      assert Escape(t) + "\"" + rest == EscapeChar(t[0]) + (Escape(t[1..]) + "\"" + rest);
      EscapeCharStep(t[0], Escape(t[1..]) + "\"" + rest);
      EscapeRoundTrip(t[1..], rest);
      assert [t[0]] + t[1..] == t;
    }
  }

  lemma StringRoundTrip(t: string, rest: string)
    ensures ParseString(Quote(t) + rest) == Some((t, rest))
  {
    assert Quote(t) + rest == "\"" + (Escape(t) + "\"" + rest);
    EscapeRoundTrip(t, rest);
  }

  lemma ScalarRoundTrip(v: Scalar, rest: string)
    ensures ParseScalar(ScalarText(v) + rest) == Some((v, rest))
  {
    var s := ScalarText(v) + rest;
    match v
    case JNull =>
      assert "null" <= s && s[4..] == rest;
    case JBool(b) =>
      if b {
        assert s[0] == 't' && "true" <= s && s[4..] == rest;
      } else {
        assert s[0] == 'f' && "false" <= s && s[5..] == rest;
      }
    case JStr(t) =>
      assert s[0] == '"';
      StringRoundTrip(t, rest);
  }

  lemma MemberRoundTrip(m: Member, rest: string)
    ensures ParseMember(MemberText(m) + rest) == Some((m, rest))
  {
    var after := ":" + ScalarText(m.1) + rest;
    assert MemberText(m) + rest == Quote(m.0) + after;
    StringRoundTrip(m.0, after);
    assert after[1..] == ScalarText(m.1) + rest;
    ScalarRoundTrip(m.1, rest);
  }

  lemma MembersClose(s: string, m: Member, rest: string)
    requires ParseMember(s) == Some((m, rest)) && rest != [] && rest[0] == '}'
    ensures ParseMembers(s) == Some(([m], rest[1..]))
  {
  }

  lemma MembersNext(s: string, m: Member, rest: string, ms: Object, rest': string)
    requires ParseMember(s) == Some((m, rest)) && rest != [] && rest[0] == ','
    requires ParseMembers(rest[1..]) == Some((ms, rest'))
    ensures ParseMembers(s) == Some(([m] + ms, rest'))
  {
  }

  lemma MembersTextOne(ms: Object, rest: string)
    requires |ms| == 1
    ensures MembersText(ms) + "}" + rest == MemberText(ms[0]) + ("}" + rest)
  {
  }

  lemma Regroup(a: string, b: string, c: string, d: string, e: string)
    ensures a + b + c + d + e == a + (b + (c + d + e))
  {
  }

  lemma HeadOfConcat(a: string, b: string)
    requires a != []
    ensures (a + b)[0] == a[0]
  {
  }

  lemma MembersTextCons(ms: Object, rest: string)
    requires |ms| > 1
    ensures MembersText(ms) + "}" + rest == MemberText(ms[0]) + ("," + (MembersText(ms[1..]) + "}" + rest))
  {
    Regroup(MemberText(ms[0]), ",", MembersText(ms[1..]), "}", rest);
  }

  lemma {:induction false} MembersRoundTrip(ms: Object, rest: string)
    requires ms != []
    ensures ParseMembers(MembersText(ms) + "}" + rest) == Some((ms, rest))
    decreases |ms|, 1
  {
    if |ms| == 1 {
      MembersRoundTripOne(ms, rest);
    } else {
      MembersRoundTripCons(ms, rest);
    }
  }

  lemma MembersRoundTripOne(ms: Object, rest: string)
    requires |ms| == 1
    ensures ParseMembers(MembersText(ms) + "}" + rest) == Some((ms, rest))
  {
    var tail := "}" + rest;
    MembersTextOne(ms, rest);
    MemberRoundTrip(ms[0], tail);
    MembersClose(MemberText(ms[0]) + tail, ms[0], tail);
    assert tail[1..] == rest;
    assert [ms[0]] == ms;
  }

  lemma {:induction false} MembersRoundTripCons(ms: Object, rest: string)
    requires |ms| > 1
    ensures ParseMembers(MembersText(ms) + "}" + rest) == Some((ms, rest))
    decreases |ms|, 0
  {
    var body := MembersText(ms[1..]) + "}" + rest;
    var tail := "," + body;
    MembersTextCons(ms, rest);
    MemberRoundTrip(ms[0], tail);
    assert tail[1..] == body;
    MembersRoundTrip(ms[1..], rest);
    MembersNext(MemberText(ms[0]) + tail, ms[0], tail, ms[1..], rest);
    assert [ms[0]] + ms[1..] == ms;
  }

  /** A non-empty member list starts with the quote of its first key. */
  lemma MemberTextStart(m: Member, tail: string)
    ensures (MemberText(m) + tail)[0] == '"'
  {
    var k := Quote(m.0);
    HeadOfConcat("\"", Escape(m.0) + "\"");
    assert k == "\"" + (Escape(m.0) + "\"");
    HeadOfConcat(k, ":" + ScalarText(m.1));
    assert MemberText(m) == k + (":" + ScalarText(m.1));
    HeadOfConcat(MemberText(m), tail);
  }

  lemma MembersTextStart(ms: Object, rest: string)
    requires ms != []
    ensures (MembersText(ms) + "}" + rest)[0] == '"'
  {
    if |ms| == 1 {
      MembersTextOne(ms, rest);
      MemberTextStart(ms[0], "}" + rest);
    } else {
      MembersTextCons(ms, rest);
      MemberTextStart(ms[0], "," + (MembersText(ms[1..]) + "}" + rest));
    }
  }

  lemma ObjectTextSplit(o: Object, rest: string)
    ensures ObjectText(o) + rest == "{" + (MembersText(o) + "}" + rest)
  {
  }

  lemma ObjectOpen(s: string, inner: string, o: Object, rest: string)
    requires s == "{" + inner && inner != [] && inner[0] == '"'
    requires ParseMembers(inner) == Some((o, rest))
    ensures ParseObject(s) == Some((o, rest))
  {
    assert s[1] == '"' && s[1..] == inner;
  }

  lemma ObjectRoundTrip(o: Object, rest: string)
    ensures ParseObject(ObjectText(o) + rest) == Some((o, rest))
  {
    ObjectTextSplit(o, rest);
    if o == [] {
      var s := ObjectText(o) + rest;
      assert "{}" <= s && s[2..] == rest;
    } else {
      var inner := MembersText(o) + "}" + rest;
      MembersTextStart(o, rest);
      MembersRoundTrip(o, rest);
      ObjectOpen(ObjectText(o) + rest, inner, o, rest);
    }
  }

  lemma ObjectsClose(s: string, o: Object, rest: string)
    requires ParseObject(s) == Some((o, rest)) && rest != [] && rest[0] == ']'
    ensures ParseObjects(s) == Some(([o], rest[1..]))
  {
  }

  lemma ObjectsNext(s: string, o: Object, rest: string, os: seq<Object>, rest': string)
    requires ParseObject(s) == Some((o, rest)) && rest != [] && rest[0] == ','
    requires ParseObjects(rest[1..]) == Some((os, rest'))
    ensures ParseObjects(s) == Some(([o] + os, rest'))
  {
  }

  lemma ObjectsTextOne(os: seq<Object>, rest: string)
    requires |os| == 1
    ensures ObjectsText(os) + "]" + rest == ObjectText(os[0]) + ("]" + rest)
  {
  }

  lemma ObjectsTextCons(os: seq<Object>, rest: string)
    requires |os| > 1
    ensures ObjectsText(os) + "]" + rest == ObjectText(os[0]) + ("," + (ObjectsText(os[1..]) + "]" + rest))
  {
    Regroup(ObjectText(os[0]), ",", ObjectsText(os[1..]), "]", rest);
  }

  lemma {:induction false} ObjectsRoundTrip(os: seq<Object>, rest: string)
    requires os != []
    ensures ParseObjects(ObjectsText(os) + "]" + rest) == Some((os, rest))
    decreases |os|, 1
  {
    if |os| == 1 {
      ObjectsRoundTripOne(os, rest);
    } else {
      ObjectsRoundTripCons(os, rest);
    }
  }

  lemma ObjectsRoundTripOne(os: seq<Object>, rest: string)
    requires |os| == 1
    ensures ParseObjects(ObjectsText(os) + "]" + rest) == Some((os, rest))
  {
    var tail := "]" + rest;
    ObjectsTextOne(os, rest);
    ObjectRoundTrip(os[0], tail);
    ObjectsClose(ObjectText(os[0]) + tail, os[0], tail);
    assert tail[1..] == rest;
    assert [os[0]] == os;
  }

  lemma {:induction false} ObjectsRoundTripCons(os: seq<Object>, rest: string)
    requires |os| > 1
    ensures ParseObjects(ObjectsText(os) + "]" + rest) == Some((os, rest))
    decreases |os|, 0
  {
    var body := ObjectsText(os[1..]) + "]" + rest;
    var tail := "," + body;
    ObjectsTextCons(os, rest);
    ObjectRoundTrip(os[0], tail);
    assert tail[1..] == body;
    ObjectsRoundTrip(os[1..], rest);
    ObjectsNext(ObjectText(os[0]) + tail, os[0], tail, os[1..], rest);
    assert [os[0]] + os[1..] == os;
  }

  /** A non-empty array of objects starts with the brace of its first object. */
  lemma ObjectsTextStart(os: seq<Object>)
    requires os != []
    ensures (ObjectsText(os) + "]")[0] == '{'
  {
    if |os| == 1 {
      ObjectsTextOne(os, "");
    } else {
      ObjectsTextCons(os, "");
    }
    ObjectTextSplit(os[0], "");
  }

  lemma ArrayOpen(s: string, inner: string, os: seq<Object>)
    requires s == "[" + inner && inner != [] && inner[0] == '{'
    requires ParseObjects(inner) == Some((os, ""))
    ensures Parse(s) == Some(os)
  {
    assert s[1..] == inner;
  }

  /** What `JSON.stringify` writes, `JSON.parse` reads back unchanged. */
  lemma ParseStringify(os: seq<Object>)
    ensures Parse(Stringify(os)) == Some(os)
  {
    if os != [] {
      var inner := ObjectsText(os) + "]";
      assert Stringify(os) == "[" + inner;
      assert inner == ObjectsText(os) + "]" + "";
      ObjectsTextStart(os);
      ObjectsRoundTrip(os, "");
      ArrayOpen(Stringify(os), inner, os);
    }
  }
}
