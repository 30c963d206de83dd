/** The Redis serialization protocol: values, their serialization and how it is parsed back. */
module Resp {
  import opened Bytes

  const I64_MIN := -0x8000_0000_0000_0000
  const I64_MAX := 0x7fff_ffff_ffff_ffff

  const CR: byte := 13
  const LF: byte := 10
  const CRLF: seq<byte> := [13, 10]
  const PLUS: byte := 43
  const MINUS: byte := 45
  const ZERO: byte := 48
  const COLON: byte := 58
  const DOLLAR: byte := 36
  const STAR: byte := 42

  datatype Value =
    | Nil
    | Int(value: int)
    | Data(bytes: seq<byte>)
    | Array(items: seq<Value>)
    | Status(text: seq<byte>)
    | Error(text: seq<byte>)
    | Message(ticket: int, id: nat, body: seq<byte>)

  datatype Result<+T> = Ok(value: T, rest: seq<byte>) | Incomplete | Invalid(reason: string)

  // ----- decimal numbers

  function Digits(n: nat): (s: seq<byte>)
    ensures |s| >= 1
  {
    if n < 10 then [ZERO + n] else Digits(n / 10) + [ZERO + n % 10]
  }

  function Show(v: int): seq<byte> {
    if v < 0 then [MINUS] + Digits(-v) else Digits(v)
  }

  predicate IsDigit(b: byte) { ZERO <= b <= ZERO + 9 }

  /** The value of a string of digits. */
  function DigitsValue(s: seq<byte>): Option<nat> {
    if s == [] then Some(0)
    else
      var front := DigitsValue(s[..|s| - 1]);
      if front.Some? && IsDigit(s[|s| - 1]) then Some(front.value * 10 + (s[|s| - 1] - ZERO)) else None
  }

  /** A signed 64-bit integer with an optional sign and at least one digit. */
  function ParseI64(s: seq<byte>): Option<int> {
    var negative := s != [] && s[0] == MINUS;
    var digits := if s != [] && (s[0] == MINUS || s[0] == PLUS) then s[1..] else s;
    var n := DigitsValue(digits);
    if digits == [] || n.None? then None
    else
      var v: int := if negative then 0 - n.value else n.value;
      if I64_MIN <= v <= I64_MAX then Some(v) else None
  }

  lemma {:induction false} DigitsReadBack(n: nat)
    ensures DigitsValue(Digits(n)) == Some(n)
    ensures forall i :: 0 <= i < |Digits(n)| ==> IsDigit(Digits(n)[i])
  {
    if n >= 10 {
      DigitsReadBack(n / 10);
      assert Digits(n)[..|Digits(n)| - 1] == Digits(n / 10);
    } else {
      assert Digits(n)[..0] == [];
    }
  }

  lemma ShowReadsBack(v: int)
    ensures ParseI64(Show(v)) == if I64_MIN <= v <= I64_MAX then Some(v) else None
    ensures CR !in Show(v)
  {
    var n := if v < 0 then -v else v;
    DigitsReadBack(n);
    assert v < 0 ==> Show(v)[1..] == Digits(n);
  }

  // ----- serialization

  function Line(tag: byte, text: seq<byte>): seq<byte> { [tag] + text + CRLF }

  function Bulk(bytes: seq<byte>): seq<byte> { Line(DOLLAR, Show(|bytes|)) + bytes + CRLF }

  function Serialize(v: Value): (s: seq<byte>)
    decreases v
  {
    match v
    case Nil => Line(DOLLAR, Show(-1))
    case Int(n) => Line(COLON, Show(n))
    case Data(bytes) => Bulk(bytes)
    case Array(items) => Line(STAR, Show(|items|)) + SerializeAll(items)
    case Status(text) => Line(PLUS, text)
    case Error(text) => Line(MINUS, text)
    case Message(ticket, id, body) =>
      Line(STAR, Show(3)) + Line(COLON, Show(id)) + Line(COLON, Show(ticket)) + Bulk(body)
  }

  function SerializeAll(vs: seq<Value>): seq<byte>
    decreases vs
  {
    if vs == [] then [] else Serialize(vs[0]) + SerializeAll(vs[1..])
  }

  // ----- UTF-8, by the table of well-formed byte sequences of the Unicode Standard

  predicate IsTail(b: byte) { 0x80 <= b <= 0xBF }

  predicate IsUtf8(s: seq<byte>) {
    if s == [] then true
    else if s[0] < 0x80 then IsUtf8(s[1..])
    else if |s| >= 2 && 0xC2 <= s[0] <= 0xDF && IsTail(s[1]) then IsUtf8(s[2..])
    else if |s| >= 3 && ThreeBytes(s[0], s[1], s[2]) then IsUtf8(s[3..])
    else if |s| >= 4 && FourBytes(s[0], s[1], s[2], s[3]) then IsUtf8(s[4..])
    else false
  }

  predicate ThreeBytes(a: byte, b: byte, c: byte) {
    && IsTail(c)
    && (|| (a == 0xE0 && 0xA0 <= b <= 0xBF)
        || (0xE1 <= a <= 0xEF && a != 0xED && IsTail(b))
        || (a == 0xED && 0x80 <= b <= 0x9F))
  }

  predicate FourBytes(a: byte, b: byte, c: byte, d: byte) {
    && IsTail(c) && IsTail(d)
    && (|| (a == 0xF0 && 0x90 <= b <= 0xBF)
        || (0xF1 <= a <= 0xF3 && IsTail(b))
        || (a == 0xF4 && 0x80 <= b <= 0x8F))
  }

  // ----- parsing

  function FindCR(s: seq<byte>): (i: nat)
    ensures i <= |s| && CR !in s[..i] && (i < |s| ==> s[i] == CR)
  {
    if s == [] || s[0] == CR then 0
    else
      var i := 1 + FindCR(s[1..]);
      assert s[..i] == [s[0]] + s[1..][..i - 1];
      i
  }

  function ReadLine(s: seq<byte>): (r: Result<seq<byte>>)
    ensures r.Ok? ==> CR !in r.value && s == r.value + CRLF + r.rest
  {
    var i := FindCR(s);
    if i == |s| then Invalid("Missing line separator")
    else if |s| < i + 2 then Incomplete
    else if s[i + 1] != LF then Invalid("Invalid line separator")
    else
      assert s == s[..i] + CRLF + s[i + 2..];
      Ok(s[..i], s[i + 2..])
  }

  function ReadText(s: seq<byte>): (r: Result<seq<byte>>)
    ensures r.Ok? ==> r == ReadLine(s)
  {
    match ReadLine(s)
    case Ok(line, rest) => if IsUtf8(line) then Ok(line, rest) else Invalid("Expected valid string, got garbage")
    case Incomplete => Incomplete
    case Invalid(reason) => Invalid(reason)
  }

  function ReadInt(s: seq<byte>): (r: Result<int>)
    ensures r.Ok? ==> ReadLine(s).Ok? && r.rest == ReadLine(s).rest && I64_MIN <= r.value <= I64_MAX
  {
    match ReadLine(s)
    case Ok(line, rest) =>
      var n := ParseI64(line);
      if n.Some? then Ok(n.value, rest) else Invalid("Expected integer, got garbage")
    case Incomplete => Incomplete
    case Invalid(reason) => Invalid(reason)
  }

  /** The payload of a bulk string of the given length, behind its header. */
  function ReadBulk(length: int, s: seq<byte>): (r: Result<Value>)
    ensures r.Ok? ==> |r.rest| <= |s| && s[|s| - |r.rest|..] == r.rest
  {
    if length < 0 then Ok(Nil, s)
    else if |s| < length + 2 then Incomplete
    else if s[length..length + 2] != CRLF then Invalid("Invalid line separator")
    else Ok(Data(s[..length]), s[length + 2..])
  }

  function ParseData(s: seq<byte>): (r: Result<Value>)
    ensures r.Ok? ==> |r.rest| < |s|
  {
    match ReadInt(s)
    case Ok(n, rest) => ReadBulk(n, rest)
    case Incomplete => Incomplete
    case Invalid(reason) => Invalid(reason)
  }

  function ParseArray(s: seq<byte>): (r: Result<Value>)
    ensures r.Ok? ==> |r.rest| < |s|
    decreases |s|, 0
  {
    match ReadInt(s)
    case Ok(n, rest) =>
      if n < 0 then Ok(Nil, rest)
      else
        (match ParseMany(n, rest)
         case Ok(items, more) => Ok(Array(items), more)
         case Incomplete => Incomplete
         case Invalid(reason) => Invalid(reason))
    case Incomplete => Incomplete
    case Invalid(reason) => Invalid(reason)
  }

  function Parse(s: seq<byte>): (r: Result<Value>)
    ensures r.Ok? ==> |r.rest| < |s|
    decreases |s|, 0
  {
    if s == [] then Incomplete
    else if s[0] == PLUS then
      (match ReadText(s[1..])
       case Ok(text, rest) => Ok(Status(text), rest)
       case Incomplete => Incomplete
       case Invalid(reason) => Invalid(reason))
    else if s[0] == MINUS then
      (match ReadText(s[1..])
       case Ok(text, rest) => Ok(Error(text), rest)
       case Incomplete => Incomplete
       case Invalid(reason) => Invalid(reason))
    else if s[0] == COLON then
      (match ReadInt(s[1..])
       case Ok(n, rest) => Ok(Int(n), rest)
       case Incomplete => Incomplete
       case Invalid(reason) => Invalid(reason))
    else if s[0] == DOLLAR then ParseData(s[1..])
    else if s[0] == STAR then ParseArray(s[1..])
    else Invalid("Invalid response when parsing value")
  }

  function ParseMany(n: nat, s: seq<byte>): (r: Result<seq<Value>>)
    ensures r.Ok? ==> |r.rest| <= |s| && |r.value| == n
    decreases |s|, 1
  {
    if n == 0 then Ok([], s)
    else
      match Parse(s)
      case Ok(v, rest) =>
        (match ParseMany(n - 1, rest)
         case Ok(vs, more) => Ok([v] + vs, more)
         case Incomplete => Incomplete
         case Invalid(reason) => Invalid(reason))
      case Incomplete => Incomplete
      case Invalid(reason) => Invalid(reason)
  }
}
