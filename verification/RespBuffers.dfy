/** The parser object, and the buffers between the parser, the serializer and the socket. */
module RespBuffers {
  import opened Bytes
  import opened Resp
  import opened RespLaws

  const MIN_REQUESTBUFFER_SIZE: nat := 4 * 1024

  datatype ProtocolError = IncompleteError | InvalidError(reason: string)

  datatype Outcome<+T> = Success(value: T) | Failure(error: ProtocolError)

  /** An outcome and the bytes left agree with what the specification says. */
  ghost predicate Agrees<T>(r: Outcome<T>, left: seq<byte>, spec: Result<T>) {
    match spec
    case Ok(v, rest) => r == Success(v) && left == rest
    case Incomplete => r == Failure(IncompleteError)
    case Invalid(reason) => r == Failure(InvalidError(reason))
  }

  /** Values already parsed in front of the result for the rest. */
  ghost function Prepend(vs: seq<Value>, r: Result<seq<Value>>): Result<seq<Value>> {
    match r
    case Ok(more, rest) => Ok(vs + more, rest)
    case Incomplete => Incomplete
    case Invalid(reason) => Invalid(reason)
  }

  lemma PrependStep(vs: seq<Value>, n: nat, s: seq<byte>)
    ensures var p, all := Parse(s), Prepend(vs, ParseMany(n + 1, s));
            && (p.Ok? ==> all == Prepend(vs + [p.value], ParseMany(n, p.rest)))
            && (p.Incomplete? ==> all == Incomplete)
            && (p.Invalid? ==> all == Invalid(p.reason))
  {
    hide Parse;
    var p := Parse(s);
    if p.Ok? && ParseMany(n, p.rest).Ok? {
      assert vs + ([p.value] + ParseMany(n, p.rest).value) == vs + [p.value] + ParseMany(n, p.rest).value;
    }
  }

  lemma PrependNothing(r: Result<seq<Value>>)
    ensures Prepend([], r) == r
  {
    assert r.Ok? ==> [] + r.value == r.value;
  }

  class Parser {
    var body: seq<byte>

    constructor (body: seq<byte>)
      ensures this.body == body
    {
      this.body := body;
    }

    method ReadLine() returns (r: Outcome<seq<byte>>)
      modifies this
      ensures Agrees(r, body, Resp.ReadLine(old(body)))
    {
      var i := 0;
      while i < |body| && body[i] != CR
        invariant i <= |body| && body == old(body)
        invariant CR !in body[..i]
      {
        i := i + 1;
      }
      FindCROf(body[..i], body[i..]);
      assert body[..i] + body[i..] == body;
      if i == |body| {
        return Failure(InvalidError("Missing line separator"));
      }
      if |body| < i + 2 {
        return Failure(IncompleteError);
      }
      var line, separator := body[..i], body[i..i + 2];
      body := body[i + 2..];
      if separator != CRLF {
        return Failure(InvalidError("Invalid line separator"));
      }
      r := Success(line);
    }

    method ReadStringLine() returns (r: Outcome<seq<byte>>)
      modifies this
      ensures Agrees(r, body, ReadText(old(body)))
    {
      r := ReadLine();
      if r.Success? && !IsUtf8(r.value) {
        r := Failure(InvalidError("Expected valid string, got garbage"));
      }
    }

    method ReadIntLine() returns (r: Outcome<int>)
      modifies this
      ensures Agrees(r, body, ReadInt(old(body)))
    {
      var line := ReadLine();
      if line.Failure? {
        return Failure(line.error);
      }
      var n := ParseI64(line.value);
      r := if n.Some? then Success(n.value) else Failure(InvalidError("Expected integer, got garbage"));
    }

    method ParseData() returns (r: Outcome<Value>)
      modifies this
      ensures Agrees(r, body, Resp.ParseData(old(body)))
    {
      var length := ReadIntLine();
      if length.Failure? {
        return Failure(length.error);
      }
      var n := length.value;
      if n < 0 {
        return Success(Nil);
      }
      if |body| < n + 2 {
        return Failure(IncompleteError);
      }
      var data, separator := body[..n], body[n..n + 2];
      body := body[n + 2..];
      if separator != CRLF {
        return Failure(InvalidError("Invalid line separator"));
      }
      r := Success(Data(data));
    }

    method ParseArray() returns (r: Outcome<Value>)
      modifies this
      ensures Agrees(r, body, Resp.ParseArray(old(body)))
      decreases |body|, 0
    {
      hide Resp.Parse, ReadInt;
      ReadIntShrinks(body);
      var length := ReadIntLine();
      if length.Failure? {
        return Failure(length.error);
      }
      var n := length.value;
      if n < 0 {
        return Success(Nil);
      }
      var items: seq<Value> := [];
      ghost var rest := body;
      var i := 0;
      PrependNothing(ParseMany(n, rest));
      while i < n
        invariant 0 <= i <= n && |body| <= |rest| < |old(body)|
        invariant ParseMany(n, rest) == Prepend(items, ParseMany(n - i, body))
      {
        PrependStep(items, n - i - 1, body);
        var v := Parse();
        if v.Failure? {
          return Failure(v.error);
        }
        items := items + [v.value];
        i := i + 1;
      }
      assert items + [] == items;
      r := Success(Array(items));
    }

    /** Parses one value off the front of the bytes. */
    method Parse() returns (r: Outcome<Value>)
      modifies this
      ensures Agrees(r, body, Resp.Parse(old(body)))
      decreases |body|, 1
    {
      hide Resp.ParseArray, Resp.ParseData, ReadInt, ReadText;
      if body == [] {
        return Failure(IncompleteError);
      }
      var tag := body[0];
      body := body[1..];
      if tag == PLUS {
        var text := ReadStringLine();
        r := if text.Success? then Success(Status(text.value)) else Failure(text.error);
      } else if tag == COLON {
        var n := ReadIntLine();
        r := if n.Success? then Success(Int(n.value)) else Failure(n.error);
      } else if tag == DOLLAR {
        r := ParseData();
      } else if tag == STAR {
        r := ParseArray();
      } else if tag == MINUS {
        var text := ReadStringLine();
        r := if text.Success? then Success(Error(text.value)) else Failure(text.error);
      } else {
        r := Failure(InvalidError("Invalid response when parsing value"));
      }
    }
  }

  lemma ReadIntShrinks(s: seq<byte>)
    ensures ReadInt(s).Ok? ==> |ReadInt(s).rest| < |s|
  {
  }

  /** Appends the serialization of a value to a byte vector. */
  method SerializeTo(v: Value, f: seq<byte>) returns (out: seq<byte>)
    ensures out == f + Serialize(v)
    decreases v
  {
    hide Show;
    match v {
      case Nil => out := f + Line(DOLLAR, Show(-1));
      case Int(n) => out := f + Line(COLON, Show(n));
      case Data(bytes) => out := f + Line(DOLLAR, Show(|bytes|)) + bytes + CRLF;
      case Array(items) =>
        out := f + Line(STAR, Show(|items|));
        for i := 0 to |items|
          invariant out == f + Line(STAR, Show(|items|)) + SerializeAll(items[..i])
        {
          SerializeAllAppend(items[..i], items[i]);
          assert items[..i] + [items[i]] == items[..i + 1];
          out := SerializeTo(items[i], out);
        }
        assert items[..|items|] == items;
      case Status(text) => out := f + Line(PLUS, text);
      case Error(text) => out := f + Line(MINUS, text);
      case Message(ticket, id, body) =>
        out := f + Line(STAR, Show(3)) + Line(COLON, Show(id)) + Line(COLON, Show(ticket)) + Bulk(body);
    }
  }

  lemma {:induction false} SerializeAllAppend(vs: seq<Value>, v: Value)
    ensures SerializeAll(vs + [v]) == SerializeAll(vs) + Serialize(v)
  {
    hide Serialize;
    if vs == [] {
      assert vs + [v] == [v];
    } else {
      assert (vs + [v])[1..] == vs[1..] + [v];
      SerializeAllAppend(vs[1..], v);
    }
  }

  /** Responses on their way out: what was sent and what is left make up what was pushed. */
  class ResponseBuffer {
    var body: seq<byte>
    var bytesWritten: nat
    ghost var values: seq<Value>
    ghost var sent: seq<byte>

    ghost predicate Valid()
      reads this
    {
      bytesWritten <= |body| && sent + body[bytesWritten..] == SerializeAll(values)
    }

    constructor ()
      ensures Valid() && values == [] && sent == []
    {
      body, bytesWritten, values, sent := [], 0, [], [];
    }

    method PushValue(v: Value)
      requires Valid()
      modifies this
      ensures Valid() && values == old(values) + [v] && sent == old(sent)
    {
      hide Serialize, SerializeAll;
      var out := SerializeTo(v, body);
      SerializeAllAppend(values, v);
      assert out[bytesWritten..] == body[bytesWritten..] + Serialize(v);
      body, values := out, values + [v];
    }

    function Remaining(): (n: nat)
      requires bytesWritten <= |body|
      reads this
      ensures n == |Bytes()|
    {
      |body| - bytesWritten
    }

    function Bytes(): seq<byte>
      requires bytesWritten <= |body|
      reads this
    {
      body[bytesWritten..]
    }

    method Advance(cnt: nat)
      requires Valid() && cnt <= Remaining()
      modifies this
      ensures Valid() && values == old(values) && sent == old(sent) + old(Bytes())[..cnt]
      ensures Bytes() == old(Bytes())[cnt..]
    {
      hide SerializeAll;
      sent := sent + body[bytesWritten..bytesWritten + cnt];
      bytesWritten := bytesWritten + cnt;
      if bytesWritten == |body| {
        body, bytesWritten := [], 0;
      }
    }
  }

  /**
   * Requests on their way in. Whatever the sizes of the reads, the values popped are those that
   * the whole byte stream received so far parses to, and what is pending is what is left of it.
   */
  class RequestBuffer {
    var body: seq<byte>
    var bytesRead: nat
    ghost var received: seq<byte>
    ghost var popped: seq<Value>

    ghost function Pending(): seq<byte>
      requires bytesRead <= |body|
      reads this
    {
      body[..bytesRead]
    }

    ghost predicate Valid()
      reads this
    {
      bytesRead <= |body| && ParseMany(|popped|, received) == Ok(popped, Pending())
    }

    constructor ()
      ensures Valid() && received == [] && popped == []
    {
      body, bytesRead, received, popped := [], 0, [], [];
    }

    function Remaining(): (n: nat)
      requires bytesRead <= |body|
      reads this
      ensures n >= MIN_REQUESTBUFFER_SIZE
    {
      if |body| - bytesRead > MIN_REQUESTBUFFER_SIZE then |body| - bytesRead else MIN_REQUESTBUFFER_SIZE
    }

    /** Makes room to read into; `spare` is the uninitialised capacity that is exposed. */
    method MutBytes(spare: seq<byte>)
      requires Valid() && |spare| >= MIN_REQUESTBUFFER_SIZE
      modifies this
      ensures Valid() && received == old(received) && popped == old(popped) && Pending() == old(Pending())
      ensures |body| - bytesRead >= MIN_REQUESTBUFFER_SIZE
    {
      if |body| - bytesRead < MIN_REQUESTBUFFER_SIZE {
        body := body + spare;
      }
      assert Pending() == old(Pending());
    }

    /** A read from the socket into the free part of the buffer, and the advance that follows it. */
    method Fill(data: seq<byte>)
      requires Valid() && |data| <= |body| - bytesRead
      modifies this
      ensures Valid() && received == old(received) + data && popped == old(popped)
      ensures Pending() == old(Pending()) + data
    {
      ParseManyAppend(|popped|, received, data);
      body := Splice(body, bytesRead, data);
      assert body[..bytesRead + |data|] == old(Pending()) + data;
      bytesRead := bytesRead + |data|;
      received := received + data;
    }

    /** Pops one value if the bytes read so far hold a complete one. */
    method PopValue() returns (r: Outcome<Value>)
      requires Valid()
      modifies this
      ensures Valid() && received == old(received)
      ensures Agrees(r, Pending(), Resp.Parse(old(Pending())))
      ensures popped == if r.Success? then old(popped) + [r.value] else old(popped)
      ensures r.Failure? ==> Pending() == old(Pending())
    {
      hide Resp.Parse, ParseMany;
      var parser := new Parser(body[..bytesRead]);
      r := parser.Parse();
      if r.Success? {
        ParseManySnoc(|popped|, received);
        popped := popped + [r.value];
        body := parser.body;
        bytesRead := |body|;
        assert body[..bytesRead] == body;
      }
    }
  }

  lemma {:induction false} ParseManySnoc(n: nat, s: seq<byte>)
    requires ParseMany(n, s).Ok? && Resp.Parse(ParseMany(n, s).rest).Ok?
    ensures var p := Resp.Parse(ParseMany(n, s).rest);
            ParseMany(n + 1, s) == Ok(ParseMany(n, s).value + [p.value], p.rest)
    decreases n
  {
    hide Resp.Parse;
    if n == 0 {
      ParseManyCons(0, s);
      var v := Resp.Parse(s).value;
      assert [v] + [] == [] + [v];
    } else {
      var p, more := Resp.Parse(s), ParseMany(n - 1, Resp.Parse(s).rest);
      ParseManySnoc(n - 1, p.rest);
      ParseManyCons(n, s);
      ParseManyCons(n - 1, s);
      var last := Resp.Parse(more.rest).value;
      assert [p.value] + more.value + [last] == [p.value] + (more.value + [last]);
    }
  }

  lemma {:induction false} ParseManyOfAll(n: nat, vs: seq<Value>)
    requires AllRepresentable(vs) && AllClean(vs)
    requires ParseMany(n, SerializeAll(vs)).Ok?
    ensures n <= |vs|
    ensures ParseMany(n, SerializeAll(vs)) == Ok(AllSeen(vs)[..n], SerializeAll(vs[n..]))
    decreases n
  {
    hide Serialize, Resp.Parse;
    if n == 0 {
      assert vs[0..] == vs;
    } else if vs == [] {
      ParseOfNothing();
    } else {
      var rest := SerializeAll(vs[1..]);
      RoundTrip(vs[0], rest);
      ParseManyOfAll(n - 1, vs[1..]);
      ParseManyCons(n - 1, SerializeAll(vs));
      assert AllSeen(vs)[..n] == [Seen(vs[0])] + AllSeen(vs[1..])[..n - 1];
      assert vs[1..][n - 1..] == vs[n..];
    }
  }

  lemma ParseOfNothing()
    ensures Resp.Parse([]) == Incomplete
  {
  }

  /**
   * End to end: if what was received is the beginning of what a client sent, in pieces of any
   * size, then the values popped are the first ones it sent, and the bytes to come complete the rest.
   */
  lemma PoppedIsSent(vs: seq<Value>, received: seq<byte>, toCome: seq<byte>, popped: seq<Value>, pending: seq<byte>)
    requires AllRepresentable(vs) && AllClean(vs)
    requires received + toCome == SerializeAll(vs)
    requires ParseMany(|popped|, received) == Ok(popped, pending)
    ensures |popped| <= |vs| && popped == AllSeen(vs)[..|popped|]
    ensures pending + toCome == SerializeAll(vs[|popped|..])
  {
    hide ParseMany, SerializeAll;
    ParseManyAppend(|popped|, received, toCome);
    ParseManyOfAll(|popped|, vs);
  }
}
