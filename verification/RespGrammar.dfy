/**
 * A grammar of the protocol that does not mention the parser: which bytes encode a value, which are cut
 * off in the middle of one, and which are malformed; and that the parser accepts exactly these.
 */
module RespGrammar {
  import opened Bytes
  import opened Resp
  import RespLaws

  // ----- numbers

  function Pow10(n: nat): nat { if n == 0 then 1 else 10 * Pow10(n - 1) }

  predicate AllDigits(s: seq<byte>) { forall i :: 0 <= i < |s| ==> 48 <= s[i] <= 57 }

  /** The number that decimal digits stand for, each counting for its place. */
  function Weight(s: seq<byte>): int {
    if s == [] then 0 else (s[0] - 48) * Pow10(|s| - 1) + Weight(s[1..])
  }

  predicate Numeral(s: seq<byte>, n: int) { s != [] && AllDigits(s) && Weight(s) == n }

  /** Digits with an optional sign stand for a signed 64-bit number. */
  predicate Number(s: seq<byte>, n: int) {
    && -0x8000_0000_0000_0000 <= n < 0x8000_0000_0000_0000
    && (|| Numeral(s, n)
        || (s != [] && s[0] == '+' as int && Numeral(s[1..], n))
        || (s != [] && s[0] == '-' as int && Numeral(s[1..], 0 - n)))
  }

  lemma TimesTen(x: int, p: int)
    ensures x * (10 * p) == 10 * (x * p)
  {
  }

  lemma {:induction false} WeightAppend(s: seq<byte>, d: byte)
    ensures Weight(s + [d]) == 10 * Weight(s) + (d - 48)
  {
    if s == [] {
      assert s + [d] == [d] && [d][1..] == [];
    } else {
      assert (s + [d])[1..] == s[1..] + [d];
      WeightAppend(s[1..], d);
      assert Pow10(|s|) == 10 * Pow10(|s| - 1);
      TimesTen(s[0] as int - 48, Pow10(|s| - 1));
    }
  }

  lemma {:induction false} DigitsWeigh(s: seq<byte>)
    ensures DigitsValue(s).Some? <==> AllDigits(s)
    ensures DigitsValue(s).Some? ==> DigitsValue(s).value == Weight(s)
  {
    if s != [] {
      var n := |s| - 1;
      DigitsWeigh(s[..n]);
      WeightAppend(s[..n], s[n]);
      assert s[..n] + [s[n]] == s;
      assert forall i :: 0 <= i < n ==> s[..n][i] == s[i];
    }
  }

  /** An integer is read exactly from the strings that stand for it. */
  lemma NumberIsRead(s: seq<byte>, n: int)
    ensures ParseI64(s) == Some(n) <==> Number(s, n)
  {
    hide Weight, DigitsValue;
    DigitsWeigh(s);
    if s != [] {
      DigitsWeigh(s[1..]);
      if s[0] == 43 || s[0] == 45 {
        assert !AllDigits(s);
      }
    }
  }

  /** Integers are written in the shortest way: no plus sign, no leading zero, no minus zero. */
  lemma {:induction false} WrittenShort(n: nat)
    ensures Digits(n)[0] == 48 ==> n == 0 && Digits(n) == [48]
    ensures AllDigits(Digits(n)) && Weight(Digits(n)) == n
  {
    DigitsReadBack(n);
    DigitsWeigh(Digits(n));
    if n >= 10 {
      WrittenShort(n / 10);
    }
  }

  lemma NumberIsWritten(v: int)
    ensures v >= 0 ==> Numeral(Show(v), v) && (Show(v)[0] == 48 ==> v == 0 && |Show(v)| == 1)
    ensures v < 0 ==> Show(v)[0] == '-' as int && Numeral(Show(v)[1..], 0 - v) && Show(v)[1] != 48
  {
    hide Digits, Weight;
    var n := if v < 0 then 0 - v else v;
    WrittenShort(n);
    assert v < 0 ==> Show(v)[1..] == Digits(n);
  }

  // ----- values

  /** A line behind its tag: the text up to a carriage return and a line feed. */
  predicate IsLine(s: seq<byte>, tag: int, text: seq<byte>, more: seq<byte>) {
    s != [] && s[0] == tag && 13 !in text && s[1..] == text + [13, 10] + more
  }

  /** The bytes encode the value. */
  ghost predicate Encodes(v: Value, s: seq<byte>)
    decreases v
  {
    match v
    case Nil =>
      exists num, n :: n < 0 && Number(num, n) && (IsLine(s, '$' as int, num, []) || IsLine(s, '*' as int, num, []))
    case Int(n) => exists num :: Number(num, n) && IsLine(s, ':' as int, num, [])
    case Data(bytes) => exists num :: Number(num, |bytes|) && IsLine(s, '$' as int, num, bytes + [13, 10])
    case Array(items) =>
      exists num, body :: Number(num, |items|) && EncodesAll(items, body) && IsLine(s, '*' as int, num, body)
    case Status(text) => IsUtf8(text) && IsLine(s, '+' as int, text, [])
    case Error(text) => IsUtf8(text) && IsLine(s, '-' as int, text, [])
    case Message(_, _, _) => false
  }

  ghost predicate EncodesAll(vs: seq<Value>, s: seq<byte>)
    decreases vs
  {
    if vs == [] then s == []
    else exists a, b :: Encodes(vs[0], a) && EncodesAll(vs[1..], b) && s == a + b
  }

  // ----- lines

  lemma LineIsRead(s: seq<byte>, text: seq<byte>, more: seq<byte>)
    ensures ReadLine(s) == Ok(text, more) <==> 13 !in text && s == text + [13, 10] + more
  {
    if 13 !in text && s == text + [13, 10] + more {
      RespLaws.ReadLineOf(text, more);
    }
  }

  lemma NumberLine(s: seq<byte>, num: seq<byte>, n: int, more: seq<byte>)
    requires 13 !in num && s == num + [13, 10] + more
    ensures ReadInt(s) == Ok(n, more) <==> Number(num, n)
    ensures ReadInt(s).Ok? ==> ReadInt(s).rest == more && Number(num, ReadInt(s).value)
  {
    hide ParseI64, Number;
    LineIsRead(s, num, more);
    NumberIsRead(num, n);
    if ParseI64(num).Some? {
      NumberIsRead(num, ParseI64(num).value);
    }
  }

  /** A number line that is read has its digits in front. */
  lemma ReadNumber(s: seq<byte>) returns (num: seq<byte>)
    requires ReadInt(s).Ok?
    ensures 13 !in num && s == num + [13, 10] + ReadInt(s).rest && Number(num, ReadInt(s).value)
  {
    num := ReadLine(s).value;
    NumberLine(s, num, ReadInt(s).value, ReadLine(s).rest);
  }

  // ----- what is parsed is encoded

  lemma TextIsEncoded(s: seq<byte>) returns (text: seq<byte>)
    requires Parse(s).Ok? && (s[0] == 43 || s[0] == 45)
    ensures Encodes(Parse(s).value, text) && s == text + Parse(s).rest
  {
    hide ReadLine, IsUtf8, ParseData, ParseArray, ReadInt;
    var line, rest := ReadText(s[1..]).value, Parse(s).rest;
    assert s[1..] == line + [13, 10] + rest;
    text := [s[0]] + line + [13, 10];
    assert text[1..] == line + [13, 10] + [];
    assert text + rest == [s[0]] + s[1..];
    assert IsLine(text, s[0], line, []);
  }

  /** A parsed value that is a number line: an integer, or nil for a negative length. */
  lemma NumberIsEncoded(s: seq<byte>, v: Value, num: seq<byte>, n: int, rest: seq<byte>) returns (text: seq<byte>)
    requires s != [] && 13 !in num && s[1..] == num + [13, 10] + rest && Number(num, n)
    requires (s[0] == 58 && v == Int(n)) || ((s[0] == 36 || s[0] == 42) && n < 0 && v == Nil)
    ensures Encodes(v, text) && s == text + rest
  {
    hide Number;
    text := [s[0]] + num + [13, 10];
    assert text[1..] == num + [13, 10] + [];
    assert text + rest == [s[0]] + s[1..];
    assert IsLine(text, s[0], num, []);
  }

  lemma DataIsEncoded(s: seq<byte>, num: seq<byte>, bytes: seq<byte>, rest: seq<byte>) returns (text: seq<byte>)
    requires s != [] && s[0] == 36 && 13 !in num && s[1..] == num + [13, 10] + (bytes + [13, 10] + rest)
    requires Number(num, |bytes|)
    ensures Encodes(Data(bytes), text) && s == text + rest
  {
    hide Number;
    text := [s[0]] + num + [13, 10] + (bytes + [13, 10]);
    assert text[1..] == num + [13, 10] + (bytes + [13, 10]);
    assert text + rest == [s[0]] + s[1..];
    assert IsLine(text, '$' as int, num, bytes + [13, 10]);
  }

  lemma ArrayIsEncoded(s: seq<byte>, num: seq<byte>, items: seq<Value>, body: seq<byte>, rest: seq<byte>)
    returns (text: seq<byte>)
    requires s != [] && s[0] == 42 && 13 !in num && s[1..] == num + [13, 10] + (body + rest)
    requires Number(num, |items|) && EncodesAll(items, body)
    ensures Encodes(Array(items), text) && s == text + rest
  {
    hide Number, EncodesAll;
    text := [s[0]] + num + [13, 10] + body;
    assert text[1..] == num + [13, 10] + body;
    assert text + rest == [s[0]] + s[1..];
    assert IsLine(text, '*' as int, num, body);
  }

  lemma BulkWasThere(n: nat, s: seq<byte>)
    requires ReadBulk(n, s).Ok?
    ensures ReadBulk(n, s).value.Data? && |ReadBulk(n, s).value.bytes| == n
    ensures s == ReadBulk(n, s).value.bytes + [13, 10] + ReadBulk(n, s).rest
  {
    assert s == s[..n] + s[n..n + 2] + s[n + 2..];
  }

  /** Whatever the parser accepts is a prefix that encodes the value. */
  lemma {:induction false} ParsedIsEncoded(s: seq<byte>) returns (text: seq<byte>)
    requires Parse(s).Ok?
    ensures Encodes(Parse(s).value, text) && s == text + Parse(s).rest
    decreases |s|, 0
  {
    hide Number, ReadLine, ReadInt, ReadText, Encodes, EncodesAll, ReadBulk, ParseMany;
    var v, rest := Parse(s).value, Parse(s).rest;
    if s[0] == 43 || s[0] == 45 {
      text := TextIsEncoded(s);
    } else {
      var num := ReadNumber(s[1..]);
      var n, more := ReadInt(s[1..]).value, ReadInt(s[1..]).rest;
      if s[0] == 58 {
        text := NumberIsEncoded(s, v, num, n, rest);
      } else if n < 0 {
        assert ReadBulk(n, more) == Ok(Nil, more) by { NegativeIsNil(n, more); }
        text := NumberIsEncoded(s, v, num, n, rest);
      } else if s[0] == 36 {
        BulkWasThere(n, more);
        text := DataIsEncoded(s, num, v.bytes, rest);
      } else {
        var body := ParsedAreEncoded(n, more);
        text := ArrayIsEncoded(s, num, v.items, body, rest);
      }
    }
  }

  lemma NegativeIsNil(n: int, s: seq<byte>)
    requires n < 0
    ensures ReadBulk(n, s) == Ok(Nil, s)
  {
  }

  lemma {:induction false} ParsedAreEncoded(n: nat, s: seq<byte>) returns (text: seq<byte>)
    requires ParseMany(n, s).Ok?
    ensures EncodesAll(ParseMany(n, s).value, text) && s == text + ParseMany(n, s).rest
    decreases |s|, 1
  {
    hide Parse, Encodes;
    if n == 0 {
      text := [];
    } else {
      var a := ParsedIsEncoded(s);
      var b := ParsedAreEncoded(n - 1, Parse(s).rest);
      text := a + b;
      var vs := ParseMany(n, s).value;
      assert vs[0] == Parse(s).value && vs[1..] == ParseMany(n - 1, Parse(s).rest).value;
    }
  }

  // ----- what is encoded is parsed

  lemma BulkIsRead(bytes: seq<byte>, rest: seq<byte>)
    ensures ReadBulk(|bytes|, bytes + [13, 10] + rest) == Ok(Data(bytes), rest)
  {
    var more := bytes + [13, 10] + rest;
    assert more[|bytes|..|bytes| + 2] == [13, 10] && more[|bytes| + 2..] == rest && more[..|bytes|] == bytes;
  }

  /** Every encoding is accepted, whatever follows it. */
  lemma {:induction false} EncodedIsParsed(v: Value, text: seq<byte>, rest: seq<byte>)
    requires Encodes(v, text)
    ensures Parse(text + rest) == Ok(v, rest)
    decreases v
  {
    hide Number, ReadLine, ReadInt, ParseI64, IsUtf8, ParseMany, EncodesAll;
    var s := text + rest;
    assert s[0] == text[0] && s[1..] == text[1..] + rest;
    match v {
      case Nil =>
        var num, n :| n < 0 && Number(num, n)
                      && (IsLine(text, '$' as int, num, []) || IsLine(text, '*' as int, num, []));
        assert s[1..] == num + [13, 10] + rest;
        NumberLine(s[1..], num, n, rest);
      case Int(n) =>
        var num :| Number(num, n) && IsLine(text, ':' as int, num, []);
        assert s[1..] == num + [13, 10] + rest;
        NumberLine(s[1..], num, n, rest);
      case Data(bytes) =>
        var num :| Number(num, |bytes|) && IsLine(text, '$' as int, num, bytes + [13, 10]);
        var more := bytes + [13, 10] + rest;
        assert s[1..] == num + [13, 10] + more;
        NumberLine(s[1..], num, |bytes|, more);
        BulkIsRead(bytes, rest);
      case Array(items) =>
        var num, body :| Number(num, |items|) && EncodesAll(items, body) && IsLine(text, '*' as int, num, body);
        assert s[1..] == num + [13, 10] + (body + rest);
        NumberLine(s[1..], num, |items|, body + rest);
        EncodedAreParsed(items, body, rest);
      case Status(t) =>
        assert s[1..] == t + [13, 10] + rest;
        LineIsRead(s[1..], t, rest);
      case Error(t) =>
        assert s[1..] == t + [13, 10] + rest;
        LineIsRead(s[1..], t, rest);
    }
  }

  lemma {:induction false} EncodedAreParsed(vs: seq<Value>, text: seq<byte>, rest: seq<byte>)
    requires EncodesAll(vs, text)
    ensures ParseMany(|vs|, text + rest) == Ok(vs, rest)
    decreases vs
  {
    hide Parse, Encodes;
    if vs == [] {
      assert text + rest == rest;
    } else {
      var a, b :| Encodes(vs[0], a) && EncodesAll(vs[1..], b) && text == a + b;
      assert text + rest == a + (b + rest);
      hide ParseMany;
      EncodedIsParsed(vs[0], a, b + rest);
      EncodedAreParsed(vs[1..], b, rest);
      RespLaws.ParseManyCons(|vs| - 1, text + rest);
      assert vs == [vs[0]] + vs[1..];
    }
  }

  // ----- what is cut off, and what is malformed

  predicate IsTag(b: byte) {
    b == '+' as int || b == '-' as int || b == ':' as int || b == '$' as int || b == '*' as int
  }

  /** Items of an array up to the one that is not there, and what stands in its place. */
  ghost predicate ItemsThen(s: seq<byte>, t: seq<byte>) {
    exists num, n, vs, body ::
      Number(num, n) && |vs| < n && EncodesAll(vs, body) && IsLine(s, '*' as int, num, body + t)
  }

  /** The bytes are cut off: nothing yet, a line feed or a payload not all there, or an item that is cut off. */
  ghost predicate CutOff(s: seq<byte>)
    decreases |s|
  {
    || s == []
    || LacksLF(s)
    || (exists num, n, t :: n >= 0 && Number(num, n) && IsLine(s, '$' as int, num, t) && |t| < n + 2)
    || (exists t :: |t| < |s| && ItemsThen(s, t) && CutOff(t))
  }

  /** The bytes are malformed, for the given reason. */
  ghost predicate Malformed(s: seq<byte>, reason: string)
    decreases |s|
  {
    || (s != [] && !IsTag(s[0]) && reason == "Invalid response when parsing value")
    || (s != [] && IsTag(s[0]) && 13 !in s[1..] && reason == "Missing line separator")
    || (reason == "Invalid line separator" && BadSeparator(s))
    || (reason == "Expected valid string, got garbage" && BadText(s))
    || (reason == "Expected integer, got garbage" && BadNumber(s))
    || (exists t :: |t| < |s| && ItemsThen(s, t) && Malformed(t, reason))
  }

  /** A line that ends in a carriage return without its line feed. */
  predicate BadEnd(s: seq<byte>, text: seq<byte>, b: byte, more: seq<byte>) {
    13 !in text && b != 10 && s == text + [13, b] + more
  }

  /** A payload of the stated length that is not followed by a carriage return and a line feed. */
  predicate BadPayload(s: seq<byte>, num: seq<byte>, n: int, t: seq<byte>) {
    n >= 0 && Number(num, n) && IsLine(s, '$' as int, num, t) && |t| >= n + 2 && t[n..n + 2] != [13, 10]
  }

  ghost predicate BadSeparator(s: seq<byte>) {
    || (s != [] && IsTag(s[0]) && exists text, b, more :: BadEnd(s[1..], text, b, more))
    || (exists num, n, t :: BadPayload(s, num, n, t))
  }

  /** A line that is not UTF-8 where text belongs. */
  ghost predicate BadText(s: seq<byte>) {
    exists tag, text, more :: (tag == '+' as int || tag == '-' as int) && !IsUtf8(text) && IsLine(s, tag, text, more)
  }

  ghost predicate NoNumber(text: seq<byte>) { forall n :: !Number(text, n) }

  /** A line that is no 64-bit number where one belongs. */
  ghost predicate BadNumber(s: seq<byte>) {
    exists tag, text, more ::
      (tag == ':' as int || tag == '$' as int || tag == '*' as int) && NoNumber(text) && IsLine(s, tag, text, more)
  }

  // ----- the outcomes of reading a line

  lemma FirstCR(text: seq<byte>, b: byte, more: seq<byte>)
    requires 13 !in text
    ensures FindCR(text + [13, b] + more) == |text|
  {
    RespLaws.FindCROf(text, [13, b] + more);
    assert text + [13, b] + more == text + ([13, b] + more);
  }

  lemma LineCut(s: seq<byte>)
    ensures ReadLine(s) == Incomplete <==> s != [] && s[|s| - 1] == 13 && 13 !in s[..|s| - 1]
  {
    var i := FindCR(s);
    if ReadLine(s) == Incomplete {
      assert s[..i] == s[..|s| - 1];
    }
    if s != [] && s[|s| - 1] == 13 && 13 !in s[..|s| - 1] {
      assert s == s[..|s| - 1] + [13];
      RespLaws.ReadLineCut(s[..|s| - 1]);
    }
  }

  lemma LineMissing(s: seq<byte>)
    ensures ReadLine(s) == Invalid("Missing line separator") <==> 13 !in s
  {
    var i := FindCR(s);
    assert i == |s| ==> s[..i] == s;
    assert i < |s| ==> s[i] in s;
  }

  lemma LineBroken(s: seq<byte>)
    ensures ReadLine(s) == Invalid("Invalid line separator") <==> exists text, b, more :: BadEnd(s, text, b, more)
  {
    if ReadLine(s) == Invalid("Invalid line separator") {
      var i := FindCR(s);
      assert s == s[..i] + [13, s[i + 1]] + s[i + 2..];
      assert BadEnd(s, s[..i], s[i + 1], s[i + 2..]);
    }
    if text, b, more :| BadEnd(s, text, b, more) {
      FirstCR(text, b, more);
    }
  }

  lemma LineReasons(s: seq<byte>)
    ensures ReadLine(s).Invalid? ==> ReadLine(s).reason == "Missing line separator"
                                     || ReadLine(s).reason == "Invalid line separator"
  {
  }

  // ----- the outcomes of parsing a value

  /** Two failures are the same: both incomplete, or both invalid for one reason. */
  predicate FailsAlike<T, U>(a: Result<T>, b: Result<U>) {
    (a.Incomplete? && b.Incomplete?) || (a.Invalid? && b.Invalid? && a.reason == b.reason)
  }

  lemma BadTag(s: seq<byte>)
    requires s != [] && !IsTag(s[0])
    ensures Parse(s) == Invalid("Invalid response when parsing value")
  {
  }

  lemma LineFails(s: seq<byte>)
    requires s != [] && IsTag(s[0]) && !ReadLine(s[1..]).Ok?
    ensures FailsAlike(Parse(s), ReadLine(s[1..]))
  {
    hide ReadLine;
  }

  lemma TextLine(s: seq<byte>, tag: int, text: seq<byte>, more: seq<byte>)
    requires IsLine(s, tag, text, more) && (tag == 43 || tag == 45)
    ensures if IsUtf8(text) then Parse(s).Ok? else Parse(s) == Invalid("Expected valid string, got garbage")
  {
    hide ReadLine, IsUtf8;
    LineIsRead(s[1..], text, more);
  }

  lemma NoNumberLine(s: seq<byte>, tag: int, text: seq<byte>, more: seq<byte>)
    requires IsLine(s, tag, text, more) && (tag == 58 || tag == 36 || tag == 42) && NoNumber(text)
    ensures Parse(s) == Invalid("Expected integer, got garbage")
  {
    hide ReadLine, ParseI64, Number;
    LineIsRead(s[1..], text, more);
    if ParseI64(text).Some? {
      NumberIsRead(text, ParseI64(text).value);
    }
  }

  lemma IntLine(s: seq<byte>, num: seq<byte>, n: int, t: seq<byte>)
    requires IsLine(s, 58, num, t) && Number(num, n)
    ensures Parse(s) == Ok(Int(n), t)
  {
    hide ReadInt, Number;
    NumberLine(s[1..], num, n, t);
  }

  lemma BulkLine(s: seq<byte>, num: seq<byte>, n: int, t: seq<byte>)
    requires IsLine(s, 36, num, t) && Number(num, n)
    ensures Parse(s) == ReadBulk(n, t)
  {
    hide ReadInt, Number, ReadBulk;
    NumberLine(s[1..], num, n, t);
  }

  lemma ArrayLine(s: seq<byte>, num: seq<byte>, n: int, t: seq<byte>)
    requires IsLine(s, 42, num, t) && Number(num, n)
    ensures n < 0 ==> Parse(s) == Ok(Nil, t)
    ensures n >= 0 ==> if ParseMany(n, t).Ok? then Parse(s).Ok? else FailsAlike(Parse(s), ParseMany(n, t))
  {
    hide ReadInt, Number, ParseMany;
    NumberLine(s[1..], num, n, t);
  }

  /** Items are parsed up to the first that fails. */
  lemma {:induction false} ManyStops(n: nat, s: seq<byte>) returns (vs: seq<Value>, body: seq<byte>, t: seq<byte>)
    requires !ParseMany(n, s).Ok?
    ensures |vs| < n && EncodesAll(vs, body) && s == body + t
    ensures FailsAlike(ParseMany(n, s), Parse(t))
    decreases n
  {
    hide Parse, Encodes;
    if !Parse(s).Ok? {
      vs, body, t := [], [], s;
    } else {
      var a := ParsedIsEncoded(s);
      var ws, b, u := ManyStops(n - 1, Parse(s).rest);
      vs, body, t := [Parse(s).value] + ws, a + b, u;
      assert vs[1..] == ws;
    }
  }

  lemma {:induction false} ManyFails(n: nat, vs: seq<Value>, body: seq<byte>, t: seq<byte>)
    requires |vs| < n && EncodesAll(vs, body) && !Parse(t).Ok?
    ensures FailsAlike(ParseMany(n, body + t), Parse(t))
    decreases n
  {
    hide Parse, Encodes;
    if vs == [] {
      assert body + t == t;
    } else {
      var a, b :| Encodes(vs[0], a) && EncodesAll(vs[1..], b) && body == a + b;
      assert body + t == a + (b + t);
      EncodedIsParsed(vs[0], a, b + t);
      ManyFails(n - 1, vs[1..], b, t);
    }
  }

  /** An array fails as its first failing item does. */
  lemma ItemFails(s: seq<byte>, t: seq<byte>)
    requires ItemsThen(s, t) && !Parse(t).Ok?
    ensures FailsAlike(Parse(s), Parse(t))
  {
    hide Parse, ParseMany, Number, EncodesAll, IsLine;
    var num, n, vs, body :|
      Number(num, n) && |vs| < n && EncodesAll(vs, body) && IsLine(s, '*' as int, num, body + t);
    ManyFails(n, vs, body, t);
    ArrayLine(s, num, n, body + t);
  }

  /** A failing array has a first failing item. */
  lemma FailingItem(s: seq<byte>, num: seq<byte>, n: nat, more: seq<byte>) returns (t: seq<byte>)
    requires IsLine(s, 42, num, more) && Number(num, n) && !ParseMany(n, more).Ok?
    ensures |t| < |s| && ItemsThen(s, t) && FailsAlike(Parse(s), Parse(t))
  {
    hide Parse, ParseMany, Number, EncodesAll;
    var vs, body, u := ManyStops(n, more);
    t := u;
    ArrayLine(s, num, n, more);
  }

  /** How a line fails is cut off or malformed accordingly. */
  lemma FailedLine(s: seq<byte>)
    requires s != [] && IsTag(s[0]) && !ReadLine(s[1..]).Ok?
    ensures Parse(s).Incomplete? ==> CutOff(s)
    ensures Parse(s).Invalid? ==> Malformed(s, Parse(s).reason)
  {
    hide ReadLine, Parse;
    LineFails(s);
    LineReasons(s[1..]);
    LineCut(s[1..]);
    LineMissing(s[1..]);
    LineBroken(s[1..]);
    if ReadLine(s[1..]) == Incomplete {
      assert s[1..][..|s| - 2] == s[1..|s| - 1] && s[1..][|s| - 2] == s[|s| - 1];
    } else if ReadLine(s[1..]) == Invalid("Invalid line separator") {
      assert BadSeparator(s);
    }
  }

  lemma FailedText(s: seq<byte>, text: seq<byte>, more: seq<byte>)
    requires !Parse(s).Ok? && s != [] && (s[0] == 43 || s[0] == 45) && IsLine(s, s[0], text, more)
    ensures Parse(s).Invalid? && Malformed(s, Parse(s).reason)
  {
    hide Parse, IsUtf8;
    TextLine(s, s[0], text, more);
    assert BadText(s);
  }

  lemma FailedNumber(s: seq<byte>, text: seq<byte>, more: seq<byte>)
    requires s != [] && (s[0] == 58 || s[0] == 36 || s[0] == 42) && IsLine(s, s[0], text, more) && NoNumber(text)
    ensures Parse(s).Invalid? && Malformed(s, Parse(s).reason)
  {
    hide Parse, NoNumber;
    NoNumberLine(s, s[0], text, more);
    assert BadNumber(s);
  }

  lemma FailedBulk(s: seq<byte>, num: seq<byte>, n: int, t: seq<byte>)
    requires !Parse(s).Ok? && IsLine(s, 36, num, t) && Number(num, n)
    ensures Parse(s).Incomplete? ==> CutOff(s)
    ensures Parse(s).Invalid? ==> Malformed(s, Parse(s).reason)
  {
    hide Parse, Number;
    BulkLine(s, num, n, t);
    if Parse(s).Invalid? {
      assert BadPayload(s, num, n, t);
    }
  }

  /** Whatever is not accepted is cut off or malformed, as the parser says. */
  lemma {:induction false} FailureIsExplained(s: seq<byte>)
    requires !Parse(s).Ok?
    ensures Parse(s).Incomplete? ==> CutOff(s)
    ensures Parse(s).Invalid? ==> Malformed(s, Parse(s).reason)
    decreases |s|
  {
    if s == [] {
    } else if !IsTag(s[0]) {
      BadTag(s);
    } else if !ReadLine(s[1..]).Ok? {
      FailedLine(s);
    } else {
      var text, more := ReadLine(s[1..]).value, ReadLine(s[1..]).rest;
      assert IsLine(s, s[0], text, more);
      hide Parse, ParseMany, Number, CutOff, Malformed, ReadLine;
      if s[0] == 43 || s[0] == 45 {
        FailedText(s, text, more);
      } else if NoNumber(text) {
        FailedNumber(s, text, more);
      } else {
        var n :| Number(text, n);
        if s[0] == 58 {
          IntLine(s, text, n, more);
        } else if s[0] == 36 {
          FailedBulk(s, text, n, more);
        } else {
          ArrayLine(s, text, n, more);
          var t := FailingItem(s, text, n, more);
          FailureIsExplained(t);
          ItemExplains(s, t);
        }
      }
    }
  }

  lemma ItemExplains(s: seq<byte>, t: seq<byte>)
    requires |t| < |s| && ItemsThen(s, t)
    ensures CutOff(t) ==> CutOff(s)
    ensures forall reason :: Malformed(t, reason) ==> Malformed(s, reason)
  {
    hide ItemsThen;
  }

  /** A line whose line feed is not there yet. */
  predicate LacksLF(s: seq<byte>) { |s| >= 2 && IsTag(s[0]) && s[|s| - 1] == 13 && 13 !in s[1..|s| - 1] }

  lemma LacksLFIsIncomplete(s: seq<byte>)
    requires LacksLF(s)
    ensures Parse(s) == Incomplete
  {
    hide Parse, ReadLine;
    assert s[1..][..|s| - 2] == s[1..|s| - 1] && s[1..][|s| - 2] == s[|s| - 1];
    LineCut(s[1..]);
    LineFails(s);
  }

  /** Bytes that are cut off are incomplete. */
  lemma {:induction false} CutOffIsIncomplete(s: seq<byte>)
    requires CutOff(s)
    ensures Parse(s) == Incomplete
    decreases |s|
  {
    hide Number, ItemsThen, IsLine, LacksLF, Parse;
    if s == [] {
      assert Parse([]) == Incomplete by { NothingIsIncomplete(); }
    } else if LacksLF(s) {
      LacksLFIsIncomplete(s);
    } else if num, n, t :| n >= 0 && Number(num, n) && IsLine(s, '$' as int, num, t) && |t| < n + 2 {
      BulkLine(s, num, n, t);
    } else {
      var t :| |t| < |s| && ItemsThen(s, t) && CutOff(t);
      CutOffIsIncomplete(t);
      ItemFails(s, t);
    }
  }

  lemma NothingIsIncomplete()
    ensures Parse([]) == Incomplete
  {
  }

  lemma BrokenIsInvalid(s: seq<byte>)
    requires BadSeparator(s)
    ensures Parse(s) == Invalid("Invalid line separator")
  {
    hide Parse, Number, ReadLine, BadEnd;
    if num, n, t :| BadPayload(s, num, n, t) {
      BulkLine(s, num, n, t);
    } else {
      LineBroken(s[1..]);
      LineFails(s);
    }
  }

  /** Malformed bytes are invalid, for that reason. */
  lemma {:induction false} MalformedIsInvalid(s: seq<byte>, reason: string)
    requires Malformed(s, reason)
    ensures Parse(s) == Invalid(reason)
    decreases |s|
  {
    hide Parse, Number, ItemsThen, ReadLine, IsUtf8, NoNumber, BadSeparator, IsLine;
    if s != [] && !IsTag(s[0]) && reason == "Invalid response when parsing value" {
      BadTag(s);
    } else if s != [] && IsTag(s[0]) && 13 !in s[1..] && reason == "Missing line separator" {
      LineMissing(s[1..]);
      LineFails(s);
    } else if reason == "Invalid line separator" && BadSeparator(s) {
      BrokenIsInvalid(s);
    } else if reason == "Expected valid string, got garbage" && BadText(s) {
      var tag, text, more :|
        (tag == '+' as int || tag == '-' as int) && !IsUtf8(text) && IsLine(s, tag, text, more);
      TextLine(s, tag, text, more);
    } else if reason == "Expected integer, got garbage" && BadNumber(s) {
      var tag, text, more :|
        (tag == ':' as int || tag == '$' as int || tag == '*' as int) && NoNumber(text) && IsLine(s, tag, text, more);
      NoNumberLine(s, tag, text, more);
    } else {
      var t :| |t| < |s| && ItemsThen(s, t) && Malformed(t, reason);
      MalformedIsInvalid(t, reason);
      ItemFails(s, t);
    }
  }

  // ----- the parser is exact

  /** The parser accepts a value exactly when a prefix encodes it. */
  lemma ParseAcceptsExactly(s: seq<byte>, v: Value, rest: seq<byte>)
    ensures Parse(s) == Ok(v, rest) <==> exists text :: Encodes(v, text) && s == text + rest
  {
    hide Parse, Encodes;
    if Parse(s) == Ok(v, rest) {
      var text := ParsedIsEncoded(s);
    }
    if text :| Encodes(v, text) && s == text + rest {
      EncodedIsParsed(v, text, rest);
    }
  }

  /** It waits for more exactly when the bytes are cut off. */
  lemma ParseWaitsExactly(s: seq<byte>)
    ensures Parse(s) == Incomplete <==> CutOff(s)
  {
    hide Parse, CutOff, Malformed;
    if Parse(s) == Incomplete {
      FailureIsExplained(s);
    }
    if CutOff(s) {
      CutOffIsIncomplete(s);
    }
  }

  /** It rejects bytes for a reason exactly when they are malformed for that reason. */
  lemma ParseRejectsExactly(s: seq<byte>, reason: string)
    ensures Parse(s) == Invalid(reason) <==> Malformed(s, reason)
  {
    hide Parse, CutOff, Malformed;
    if Parse(s) == Invalid(reason) {
      FailureIsExplained(s);
    }
    if Malformed(s, reason) {
      MalformedIsInvalid(s, reason);
    }
  }

  /** What is written for a value that can be written cleanly encodes what clients see of it. */
  lemma WrittenIsEncoded(v: Value)
    requires RespLaws.Representable(v) && RespLaws.Clean(v)
    ensures Encodes(RespLaws.Seen(v), Serialize(v))
  {
    hide Parse, Encodes, Serialize, RespLaws.Representable, RespLaws.Clean, RespLaws.Seen;
    RespLaws.RoundTrip(v, []);
    assert Serialize(v) + [] == Serialize(v);
    var text := ParsedIsEncoded(Serialize(v));
    assert text + [] == text;
  }
}
