/** Laws of the protocol: what round-trips, and what a parse makes of more or fewer bytes. */
module RespLaws {
  import opened Bytes
  import opened Resp

  // ----- lines

  lemma {:induction false} FindCROf(text: seq<byte>, more: seq<byte>)
    requires CR !in text
    ensures FindCR(text + more) == |text| + FindCR(more)
  {
    if text == [] {
      assert text + more == more;
    } else {
      assert text[0] in text && (text + more)[0] == text[0];
      assert (text + more)[1..] == text[1..] + more;
      FindCROf(text[1..], more);
    }
  }

  lemma ReadLineOf(text: seq<byte>, rest: seq<byte>)
    requires CR !in text
    ensures ReadLine(text + CRLF + rest) == Ok(text, rest)
  {
    var s := text + CRLF + rest;
    assert s == text + (CRLF + rest);
    FindCROf(text, CRLF + rest);
    assert s[..|text|] == text && s[|text| + 2..] == rest;
  }

  /** A line without its separator is reported as invalid, and one cut between CR and LF as incomplete. */
  lemma ReadLineCut(text: seq<byte>)
    requires CR !in text
    ensures ReadLine(text) == Invalid("Missing line separator")
    ensures ReadLine(text + [CR]) == Incomplete
  {
    FindCROf(text, []);
    assert text + [] == text;
    FindCROf(text, [CR]);
  }

  lemma ReadLineAppend(s: seq<byte>, t: seq<byte>)
    requires ReadLine(s).Ok?
    ensures ReadLine(s + t) == Ok(ReadLine(s).value, ReadLine(s).rest + t)
  {
    var r := ReadLine(s);
    assert s + t == r.value + CRLF + (r.rest + t);
    ReadLineOf(r.value, r.rest + t);
  }

  // ----- success is stable under appending

  /** A successful parse gives the same value, with a longer remainder, when bytes are appended. */
  lemma {:induction false} ParseAppend(s: seq<byte>, t: seq<byte>)
    requires Parse(s).Ok?
    ensures Parse(s + t) == Ok(Parse(s).value, Parse(s).rest + t)
    decreases |s|, 0
  {
    assert (s + t)[0] == s[0] && (s + t)[1..] == s[1..] + t;
    hide FindCR, IsUtf8, ParseI64;
    ReadLineAppend(s[1..], t);
    hide ReadLine;
    if s[0] == DOLLAR {
      var r := ReadInt(s[1..]);
      BulkAppend(r.value, r.rest, t);
    } else if s[0] == STAR {
      var r := ReadInt(s[1..]);
      if r.value >= 0 {
        ParseManyAppend(r.value, r.rest, t);
      }
    }
  }

  lemma BulkAppend(length: int, s: seq<byte>, t: seq<byte>)
    requires ReadBulk(length, s).Ok?
    ensures ReadBulk(length, s + t) == Ok(ReadBulk(length, s).value, ReadBulk(length, s).rest + t)
  {
    if length >= 0 {
      assert (s + t)[length..length + 2] == s[length..length + 2];
      assert (s + t)[..length] == s[..length] && (s + t)[length + 2..] == s[length + 2..] + t;
    }
  }

  lemma {:induction false} ParseManyAppend(n: nat, s: seq<byte>, t: seq<byte>)
    requires ParseMany(n, s).Ok?
    ensures ParseMany(n, s + t) == Ok(ParseMany(n, s).value, ParseMany(n, s).rest + t)
    decreases |s|, 1
  {
    hide Parse;
    if n > 0 {
      ParseAppend(s, t);
      ParseManyAppend(n - 1, Parse(s).rest, t);
    }
  }

  // ----- what round-trips

  /** What the types of the program guarantee of a value. */
  predicate Representable(v: Value)
    decreases v
  {
    match v
    case Nil => true
    case Int(n) => I64_MIN <= n <= I64_MAX
    case Data(bytes) => |bytes| < U32_RANGE
    case Array(items) => |items| <= I64_MAX && AllRepresentable(items)
    case Status(text) => IsUtf8(text)
    case Error(text) => IsUtf8(text)
    case Message(ticket, id, body) => I64_MIN <= ticket <= I64_MAX && id < U64_RANGE && |body| < U32_RANGE
  }

  predicate AllRepresentable(vs: seq<Value>)
    decreases vs
  {
    vs == [] || (Representable(vs[0]) && AllRepresentable(vs[1..]))
  }

  /** Texts without CR, and message ids that fit a signed integer. */
  predicate Clean(v: Value)
    decreases v
  {
    match v
    case Array(items) => AllClean(items)
    case Status(text) => CR !in text
    case Error(text) => CR !in text
    case Message(_, id, _) => id <= I64_MAX
    case _ => true
  }

  predicate AllClean(vs: seq<Value>)
    decreases vs
  {
    vs == [] || (Clean(vs[0]) && AllClean(vs[1..]))
  }

  /** What a reader sees: a message is an array of its id, its ticket and its body. */
  function Seen(v: Value): Value
    decreases v
  {
    match v
    case Array(items) => Array(AllSeen(items))
    case Message(ticket, id, body) => Array([Int(id), Int(ticket), Data(body)])
    case _ => v
  }

  function AllSeen(vs: seq<Value>): (r: seq<Value>)
    ensures |r| == |vs|
    decreases vs
  {
    if vs == [] then [] else [Seen(vs[0])] + AllSeen(vs[1..])
  }

  lemma ParseLine(tag: byte, text: seq<byte>, rest: seq<byte>)
    requires CR !in text
    ensures var s := Line(tag, text) + rest;
            && s[0] == tag && s[1..] == text + CRLF + rest
            && ReadLine(s[1..]) == Ok(text, rest)
  {
    ReadLineOf(text, rest);
    assert (Line(tag, text) + rest)[1..] == text + CRLF + rest;
  }

  lemma ParseOfBulk(bytes: seq<byte>, rest: seq<byte>)
    requires |bytes| < U32_RANGE
    ensures Parse(Bulk(bytes) + rest) == Ok(Data(bytes), rest)
  {
    ShowReadsBack(|bytes|);
    var body := bytes + CRLF + rest;
    ParseLine(DOLLAR, Show(|bytes|), body);
    assert Bulk(bytes) + rest == Line(DOLLAR, Show(|bytes|)) + body;
    assert body[..|bytes|] == bytes && body[|bytes|..|bytes| + 2] == CRLF && body[|bytes| + 2..] == rest;
  }

  lemma ParseOfInt(n: int, rest: seq<byte>)
    ensures Parse(Line(COLON, Show(n)) + rest)
         == if I64_MIN <= n <= I64_MAX then Ok(Int(n), rest) else Invalid("Expected integer, got garbage")
  {
    ShowReadsBack(n);
    ParseLine(COLON, Show(n), rest);
  }

  lemma ParseOfArray(n: nat, rest: seq<byte>)
    requires n <= I64_MAX
    ensures Parse(Line(STAR, Show(n)) + rest)
         == match ParseMany(n, rest)
            case Ok(items, more) => Ok(Array(items), more)
            case Incomplete => Incomplete
            case Invalid(reason) => Invalid(reason)
  {
    ShowReadsBack(n);
    ParseLine(STAR, Show(n), rest);
    hide ParseMany;
  }

  lemma ParseOfNil(rest: seq<byte>)
    ensures Parse(Line(DOLLAR, Show(-1)) + rest) == Ok(Nil, rest)
  {
    ShowReadsBack(-1);
    ParseLine(DOLLAR, Show(-1), rest);
  }

  lemma ParseOfText(text: seq<byte>, rest: seq<byte>)
    requires CR !in text && IsUtf8(text)
    ensures Parse(Line(PLUS, text) + rest) == Ok(Status(text), rest)
    ensures Parse(Line(MINUS, text) + rest) == Ok(Error(text), rest)
  {
    ParseLine(PLUS, text, rest);
    ParseLine(MINUS, text, rest);
  }

  lemma ParseManyCons(n: nat, s: seq<byte>)
    requires Parse(s).Ok? && ParseMany(n, Parse(s).rest).Ok?
    ensures ParseMany(n + 1, s)
         == Ok([Parse(s).value] + ParseMany(n, Parse(s).rest).value, ParseMany(n, Parse(s).rest).rest)
  {
    hide Parse;
  }

  /** Parsing a serialized value followed by anything returns what a reader sees, and the rest. */
  lemma {:induction false} RoundTrip(v: Value, rest: seq<byte>)
    requires Representable(v) && Clean(v)
    ensures Parse(Serialize(v) + rest) == Ok(Seen(v), rest)
    decreases v
  {
    hide Parse, ParseMany, IsUtf8, Show, Bulk;
    match v {
      case Nil => ParseOfNil(rest);
      case Int(n) => ParseOfInt(n, rest);
      case Data(bytes) => ParseOfBulk(bytes, rest);
      case Status(text) => ParseOfText(text, rest);
      case Error(text) => ParseOfText(text, rest);
      case Array(items) =>
        RoundTripAll(items, rest);
        ParseOfArray(|items|, SerializeAll(items) + rest);
        assert Serialize(v) + rest == Line(STAR, Show(|items|)) + (SerializeAll(items) + rest);
      case Message(ticket, id, body) => RoundTripMessage(ticket, id, body, rest);
    }
  }

  lemma {:induction false} RoundTripAll(vs: seq<Value>, rest: seq<byte>)
    requires AllRepresentable(vs) && AllClean(vs)
    ensures ParseMany(|vs|, SerializeAll(vs) + rest) == Ok(AllSeen(vs), rest)
    decreases vs
  {
    hide Parse, Serialize;
    if vs == [] {
      assert SerializeAll(vs) + rest == rest;
    } else {
      assert SerializeAll(vs) + rest == Serialize(vs[0]) + (SerializeAll(vs[1..]) + rest);
      RoundTrip(vs[0], SerializeAll(vs[1..]) + rest);
      RoundTripAll(vs[1..], rest);
    }
  }

  /** A message comes back as its id, ticket and body exactly when its id fits a signed integer. */
  lemma RoundTripMessage(ticket: int, id: nat, body: seq<byte>, rest: seq<byte>)
    requires I64_MIN <= ticket <= I64_MAX && |body| < U32_RANGE
    ensures Parse(Serialize(Message(ticket, id, body)) + rest)
         == if id <= I64_MAX then Ok(Array([Int(id), Int(ticket), Data(body)]), rest)
            else Invalid("Expected integer, got garbage")
  {
    hide Parse;
    var s3 := Bulk(body) + rest;
    var s2 := Line(COLON, Show(ticket)) + s3;
    var s1 := Line(COLON, Show(id)) + s2;
    assert Serialize(Message(ticket, id, body)) + rest == Line(STAR, Show(3)) + s1;
    ParseOfArray(3, s1);
    ParseOfInt(id, s2);
    ParseOfInt(ticket, s3);
    ParseOfBulk(body, rest);
    if id <= I64_MAX {
      ParseManyCons(0, s3);
      ParseManyCons(1, s2);
      ParseManyCons(2, s1);
      assert [Data(body)] + [] == [Data(body)];
      assert [Int(id)] + ([Int(ticket)] + [Data(body)]) == [Int(id), Int(ticket), Data(body)];
    }
  }

  // ----- exactly what round-trips

  /** What a parse can yield: no message, integers in range, texts without CR. */
  predicate Readable(v: Value)
    decreases v
  {
    match v
    case Int(n) => I64_MIN <= n <= I64_MAX
    case Array(items) => AllReadable(items)
    case Status(text) => CR !in text
    case Error(text) => CR !in text
    case Message(_, _, _) => false
    case _ => true
  }

  predicate AllReadable(vs: seq<Value>)
    decreases vs
  {
    vs == [] || (Readable(vs[0]) && AllReadable(vs[1..]))
  }

  lemma {:induction false} ParseIsReadable(s: seq<byte>)
    requires Parse(s).Ok?
    ensures Readable(Parse(s).value)
    decreases |s|, 0
  {
    hide ReadLine, IsUtf8;
    if s[0] == STAR && ReadInt(s[1..]).value >= 0 {
      ParseManyIsReadable(ReadInt(s[1..]).value, ReadInt(s[1..]).rest);
    }
  }

  lemma {:induction false} ParseManyIsReadable(n: nat, s: seq<byte>)
    requires ParseMany(n, s).Ok?
    ensures AllReadable(ParseMany(n, s).value)
    decreases |s|, 1
  {
    hide Parse;
    if n > 0 {
      ParseIsReadable(s);
      ParseManyIsReadable(n - 1, Parse(s).rest);
    }
  }

  /** A value parsed from fewer than 2^32 bytes can be written, and is what a client would see of it. */
  lemma {:induction false} ParsedIsRepresentable(s: seq<byte>)
    requires Parse(s).Ok? && |s| < U32_RANGE
    ensures var v := Parse(s).value;
            Representable(v) && Clean(v) && Seen(v) == v
    decreases |s|, 0
  {
    hide ReadLine, IsUtf8, ParseI64;
    if s[0] == STAR && ReadInt(s[1..]).value >= 0 {
      ParsedItemsAreRepresentable(ReadInt(s[1..]).value, ReadInt(s[1..]).rest);
    }
  }

  lemma {:induction false} ParsedItemsAreRepresentable(n: nat, s: seq<byte>)
    requires ParseMany(n, s).Ok? && |s| < U32_RANGE
    ensures var vs := ParseMany(n, s).value;
            AllRepresentable(vs) && AllClean(vs) && AllSeen(vs) == vs
    decreases |s|, 1
  {
    hide Parse;
    if n > 0 {
      ParsedIsRepresentable(s);
      ParsedItemsAreRepresentable(n - 1, Parse(s).rest);
    }
  }

  /** Whatever a request of that size parses to comes back unchanged when it is written and parsed again. */
  lemma ParsedSurvives(s: seq<byte>, rest: seq<byte>)
    requires Parse(s).Ok? && |s| < U32_RANGE
    ensures Parse(Serialize(Parse(s).value) + rest) == Ok(Parse(s).value, rest)
  {
    hide Parse, Serialize, Representable, Clean, Seen;
    ParsedIsRepresentable(s);
    RoundTrip(Parse(s).value, rest);
  }

  lemma {:induction false} SeenIsReadable(v: Value)
    requires Representable(v)
    ensures Readable(Seen(v)) <==> Clean(v)
    decreases v
  {
    match v {
      case Array(items) => AllSeenIsReadable(items);
      case Message(ticket, id, body) =>
        var a, b, c := Int(id), Int(ticket), Data(body);
        ReadableTriple(a, b, c);
      case _ =>
    }
  }

  lemma ReadableTriple(a: Value, b: Value, c: Value)
    ensures AllReadable([a, b, c]) <==> Readable(a) && Readable(b) && Readable(c)
  {
    assert [a, b, c][1..] == [b, c] && [b, c][1..] == [c] && [c][1..] == [];
    assert AllReadable([c]) <==> Readable(c);
    assert AllReadable([b, c]) <==> Readable(b) && AllReadable([c]);
  }

  lemma {:induction false} AllSeenIsReadable(vs: seq<Value>)
    requires AllRepresentable(vs)
    ensures AllReadable(AllSeen(vs)) <==> AllClean(vs)
    decreases vs
  {
    if vs != [] {
      SeenIsReadable(vs[0]);
      AllSeenIsReadable(vs[1..]);
    }
  }

  /** A value survives the wire exactly when its texts have no CR and its message ids fit. */
  lemma RoundTripExactly(v: Value, rest: seq<byte>)
    requires Representable(v)
    ensures Parse(Serialize(v) + rest) == Ok(Seen(v), rest) <==> Clean(v)
  {
    hide Parse, Serialize;
    SeenIsReadable(v);
    if Clean(v) {
      RoundTrip(v, rest);
    }
    if Parse(Serialize(v) + rest) == Ok(Seen(v), rest) {
      ParseIsReadable(Serialize(v) + rest);
    }
  }

  // ----- prefixes

  /** No strict prefix of an encoding parses. */
  lemma EncodingsArePrefixFree(v: Value, k: nat)
    requires Representable(v) && Clean(v) && k < |Serialize(v)|
    ensures !Parse(Serialize(v)[..k]).Ok?
  {
    hide Parse, Serialize;
    var s := Serialize(v);
    if Parse(s[..k]).Ok? {
      ParseAppend(s[..k], s[k..]);
      assert s[..k] + s[k..] == s + [];
      RoundTrip(v, []);
    }
  }

  /** The length of the first line of an encoding, up to its CR. */
  function HeaderEnd(v: Value): nat {
    match v
    case Nil => 1 + |Show(-1)|
    case Int(n) => 1 + |Show(n)|
    case Data(bytes) => 1 + |Show(|bytes|)|
    case Array(items) => 1 + |Show(|items|)|
    case Status(text) => 1 + |text|
    case Error(text) => 1 + |text|
    case Message(_, _, _) => 1 + |Show(3)|
  }

  /** A cut after `k` bytes falls inside a header line, before its CR. */
  predicate CutsHeader(v: Value, k: nat)
    decreases v
  {
    || 1 <= k <= HeaderEnd(v)
    || (v.Array? && k >= HeaderEnd(v) + 2 && CutsHeaderOf(v.items, k - HeaderEnd(v) - 2))
  }

  predicate CutsHeaderOf(vs: seq<Value>, k: nat)
    decreases vs
  {
    vs != [] &&
    if k < |Serialize(vs[0])| then CutsHeader(vs[0], k) else CutsHeaderOf(vs[1..], k - |Serialize(vs[0])|)
  }

  lemma LineCut(tag: byte, text: seq<byte>, k: nat)
    requires CR !in text && k < |text| + 3
    requires tag in {PLUS, MINUS, COLON, DOLLAR, STAR}
    ensures Parse(Line(tag, text)[..k])
         == if 1 <= k <= 1 + |text| then Invalid("Missing line separator") else Incomplete
  {
    var p := Line(tag, text)[..k];
    if k > 0 {
      if k <= 1 + |text| {
        assert p[1..] == text[..k - 1];
        ReadLineCut(text[..k - 1]);
      } else {
        assert p[1..] == text + [CR];
        ReadLineCut(text);
      }
      hide ReadLine;
    }
  }

  lemma BulkCut(bytes: seq<byte>, k: nat)
    requires |bytes| < U32_RANGE && k < |Bulk(bytes)|
    ensures Parse(Bulk(bytes)[..k])
         == if 1 <= k <= 1 + |Show(|bytes|)| then Invalid("Missing line separator") else Incomplete
  {
    var text := Show(|bytes|);
    var h := |text| + 3;
    ShowReadsBack(|bytes|);
    var line, body := Line(DOLLAR, text), bytes + CRLF;
    assert Bulk(bytes) == line + body;
    if k < h {
      assert Bulk(bytes)[..k] == line[..k];
      LineCut(DOLLAR, text, k);
    } else {
      assert Bulk(bytes)[..k] == line + body[..k - h];
      ParseLine(DOLLAR, text, body[..k - h]);
    }
  }

  lemma {:induction false} CutReadable(v: Value, k: nat)
    requires Representable(v) && Clean(v) && Readable(v) && k < |Serialize(v)|
    ensures Parse(Serialize(v)[..k])
         == if CutsHeader(v, k) then Invalid("Missing line separator") else Incomplete
    decreases v
  {
    hide Parse, ParseMany, IsUtf8, Show, Bulk;
    match v {
      case Nil => ShowReadsBack(-1); LineCut(DOLLAR, Show(-1), k);
      case Int(n) => ShowReadsBack(n); LineCut(COLON, Show(n), k);
      case Data(bytes) => BulkCut(bytes, k);
      case Status(text) => LineCut(PLUS, text, k);
      case Error(text) => LineCut(MINUS, text, k);
      case Array(items) =>
        var text := Show(|items|);
        var line, body, h := Line(STAR, text), SerializeAll(items), |text| + 3;
        ShowReadsBack(|items|);
        if k < h {
          assert Serialize(v)[..k] == line[..k];
          LineCut(STAR, text, k);
        } else {
          assert Serialize(v)[..k] == line + body[..k - h];
          ParseOfArray(|items|, body[..k - h]);
          CutResultAll(items, k - h);
        }
    }
  }

  lemma {:induction false} CutResultAll(vs: seq<Value>, k: nat)
    requires AllRepresentable(vs) && AllClean(vs) && AllReadable(vs) && k < |SerializeAll(vs)|
    ensures ParseMany(|vs|, SerializeAll(vs)[..k])
         == if CutsHeaderOf(vs, k) then Invalid("Missing line separator") else Incomplete
    decreases vs
  {
    hide Parse, Serialize, CutsHeader;
    var first, more := Serialize(vs[0]), SerializeAll(vs[1..]);
    if k < |first| {
      assert SerializeAll(vs)[..k] == first[..k];
      CutReadable(vs[0], k);
    } else {
      var k' := k - |first|;
      assert SerializeAll(vs)[..k] == first + more[..k'];
      RoundTrip(vs[0], more[..k']);
      CutResultAll(vs[1..], k');
    }
  }

  /** A value is written exactly as what a reader sees of it. */
  lemma {:induction false} SeenIsWrittenAlike(v: Value)
    requires Representable(v)
    ensures Serialize(Seen(v)) == Serialize(v)
    ensures Clean(v) ==> Representable(Seen(v)) && Clean(Seen(v))
    decreases v
  {
    match v {
      case Array(items) => AllSeenIsWrittenAlike(items);
      case Message(ticket, id, body) =>
        MessageIsWrittenAlike(ticket, id, body);
      case _ =>
    }
  }

  lemma MessageIsWrittenAlike(ticket: int, id: nat, body: seq<byte>)
    ensures var a, b, c := Int(id), Int(ticket), Data(body);
            && Serialize(Array([a, b, c])) == Serialize(Message(ticket, id, body))
            && AllClean([a, b, c])
            && (AllRepresentable([a, b, c]) <==> Representable(a) && Representable(b) && Representable(c))
  {
    hide Show, Bulk;
    var a, b, c := Int(id), Int(ticket), Data(body);
    assert [a, b, c][1..] == [b, c] && [b, c][1..] == [c] && [c][1..] == [];
    assert SerializeAll([c]) == Serialize(c);
    assert SerializeAll([b, c]) == Serialize(b) + Serialize(c);
    assert SerializeAll([a, b, c]) == Serialize(a) + Serialize(b) + Serialize(c);
    var line := Line(STAR, Show(3));
    assert line + (Serialize(a) + Serialize(b) + Serialize(c)) == line + Serialize(a) + Serialize(b) + Serialize(c);
    assert AllRepresentable([c]) <==> Representable(c);
    assert AllRepresentable([b, c]) <==> Representable(b) && AllRepresentable([c]);
    assert AllClean([c]) && AllClean([b, c]);
  }

  lemma {:induction false} AllSeenIsWrittenAlike(vs: seq<Value>)
    requires AllRepresentable(vs)
    ensures SerializeAll(AllSeen(vs)) == SerializeAll(vs)
    ensures AllClean(vs) ==> AllRepresentable(AllSeen(vs)) && AllClean(AllSeen(vs))
    decreases vs
  {
    hide Serialize;
    if vs != [] {
      SeenIsWrittenAlike(vs[0]);
      AllSeenIsWrittenAlike(vs[1..]);
      assert AllSeen(vs)[1..] == AllSeen(vs[1..]);
    }
  }

  /**
   * What a strict prefix of an encoding parses to: incomplete, except that a cut inside a header
   * line, before its CR, is reported as invalid.
   */
  lemma CutResult(v: Value, k: nat)
    requires Representable(v) && Clean(v) && k < |Serialize(v)|
    ensures Parse(Serialize(v)[..k])
         == if CutsHeader(Seen(v), k) then Invalid("Missing line separator") else Incomplete
  {
    hide Parse, Serialize, CutsHeader;
    SeenIsWrittenAlike(v);
    SeenIsReadable(v);
    CutReadable(Seen(v), k);
  }
}
