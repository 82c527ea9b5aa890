/** The chunked transfer coding of section 4.1 of RFC 7230 (without extensions and trailers):
    the writer that wraps every write into a chunk, and the reader that undoes it. */
module ChunkedStream {

  type byte = x: int | 0 <= x < 256

  type bytes = seq<byte>

  datatype StreamError =
    | PrematureEnd
    | Unexpected
    | TooBig
    | OutOfRange
    | Inconsistent
    | IllegalAlias
    | IllegalName
    | IllegalLength
    | TagRepeated
    | TagAfterEnd
    | UnknownTag
    | TooManyResources

  datatype Reading<+T> = Good(value: T) | Bad(error: StreamError) {
    predicate IsFailure() {
      Bad?
    }

    function PropagateFailure<U>(): Reading<U>
      requires Bad?
    {
      Bad(error)
    }

    function Extract(): T
      requires Good?
    {
      value
    }
  }

  const LIMIT: int := 0x8fffffff
  const CR: byte := 13
  const LF: byte := 10
  const CRLF: bytes := [13, 10]
  const TERMINATOR: bytes := [48, 13, 10, 13, 10]

  /** A lower-case hexadecimal digit. */
  function Digit(d: int): byte
    requires 0 <= d < 16
  {
    if d < 10 then 48 + d else 97 + d - 10
  }

  predicate IsDigit(c: byte) {
    48 <= c <= 57 || 97 <= c <= 102
  }

  function DigitValue(c: byte): nat
    requires IsDigit(c)
  {
    if c <= 57 then c - 48 else 10 + (c - 97)
  }

  function Hex(n: nat): (r: bytes)
    ensures r != []
  {
    if n < 16 then [Digit(n)] else Hex(n / 16) + [Digit(n % 16)]
  }

  predicate AllDigits(s: bytes) {
    forall c :: c in s ==> IsDigit(c)
  }

  function Value(s: bytes): nat
    requires AllDigits(s)
  {
    if s == [] then 0 else 16 * Value(s[..|s| - 1]) + DigitValue(s[|s| - 1])
  }

  lemma {:induction false} HexValue(n: nat)
    ensures AllDigits(Hex(n)) && Value(Hex(n)) == n
  {
    if n >= 16 {
      HexValue(n / 16);
      assert Hex(n)[..|Hex(n)| - 1] == Hex(n / 16);
    } else {
      assert Hex(n)[..0] == [];
    }
  }

  /** How many digits `s` begins with. */
  function Digits(s: bytes): (k: nat)
    ensures k <= |s| && AllDigits(s[..k])
    ensures k < |s| ==> !IsDigit(s[k])
  {
    if s != [] && IsDigit(s[0]) then
      assert s[..1 + Digits(s[1..])] == [s[0]] + s[1..][..Digits(s[1..])];
      1 + Digits(s[1..])
    else 0
  }

  lemma {:induction false} DigitsOf(ds: bytes, c: byte, more: bytes)
    requires AllDigits(ds) && !IsDigit(c)
    ensures Digits(ds + [c] + more) == |ds|
  {
    var s := ds + [c] + more;
    if ds != [] {
      assert s[1..] == ds[1..] + [c] + more;
      DigitsOf(ds[1..], c, more);
    }
  }

  // ---------------------------------------------------------------- the encoding

  function Chunk(data: bytes): bytes {
    Hex(|data|) + CRLF + data + CRLF
  }

  function Encode(chunks: seq<bytes>): bytes {
    if chunks == [] then [] else Chunk(chunks[0]) + Encode(chunks[1..])
  }

  function Payload(chunks: seq<bytes>): bytes {
    if chunks == [] then [] else chunks[0] + Payload(chunks[1..])
  }

  /** Chunks a reader accepts: none is empty, none too long. */
  predicate Acceptable(chunks: seq<bytes>) {
    forall c :: c in chunks ==> 0 < |c| <= LIMIT
  }

  lemma {:induction false} EncodeSnoc(chunks: seq<bytes>, c: bytes)
    ensures Encode(chunks + [c]) == Encode(chunks) + Chunk(c)
    ensures Payload(chunks + [c]) == Payload(chunks) + c
  {
    hide Chunk;
    if chunks == [] {
      assert [c][1..] == [];
      assert chunks + [c] == [c];
    } else {
      EncodeSnoc(chunks[1..], c);
      assert (chunks + [c])[1..] == chunks[1..] + [c];
      assert (chunks + [c])[0] == chunks[0];
    }
  }

  // ---------------------------------------------------------------- the writer

  /** The outgoing connection. */
  class Connection {
    var sent: bytes

    constructor ()
      ensures sent == []
    {
      sent := [];
    }

    method Send(data: bytes)
      modifies this
      ensures sent == old(sent) + data
    {
      sent := sent + data;
    }
  }

  class Chunked {
    const conn: Connection
    ghost var chunks: seq<bytes>

    constructor (c: Connection)
      requires c.sent == []
      ensures conn == c && Valid() && chunks == []
    {
      conn, chunks := c, [];
    }

    /** What has been sent is the encoding of the chunks so far. */
    ghost predicate Valid() reads this, conn {
      conn.sent == Encode(chunks)
    }

    method Write(data: bytes)
      requires Valid()
      modifies this, conn
      ensures Valid() && chunks == if data == [] then old(chunks) else old(chunks) + [data]
      ensures Payload(chunks) == old(Payload(chunks)) + data
      ensures Acceptable(old(chunks)) && |data| <= LIMIT ==> Acceptable(chunks)
    {
      EncodeSnoc(chunks, data);
      if data == [] {
        return;
      }
      conn.Send(Hex(|data|));
      conn.Send([CR, LF]);
      conn.Send(data);
      conn.Send([CR, LF]);
      chunks := chunks + [data];
      SentChunk(old(conn.sent), data);
    }

    method Close()
      requires Valid()
      modifies conn
      ensures conn.sent == Encode(chunks) + TERMINATOR
    {
      conn.Send([48, CR, LF, CR, LF]);
    }
  }

  lemma SentChunk(sent: bytes, data: bytes)
    ensures sent + Hex(|data|) + CRLF + data + CRLF == sent + Chunk(data)
  {
    hide Hex;
    Flatten(sent, Hex(|data|), CRLF, data, CRLF);
  }

  lemma Flatten(a: bytes, b: bytes, c: bytes, d: bytes, e: bytes)
    ensures a + b + c + d + e == a + (b + c + d + e)
  {
  }

  /** Reading the header of a chunk leaves its data. */
  lemma HeaderOf(c: bytes, more: bytes)
    requires |c| <= LIMIT
    ensures HasHeader(Chunk(c) + more)
    ensures var k := Digits(Chunk(c) + more);
            && Value((Chunk(c) + more)[..k]) == |c|
            && (Chunk(c) + more)[k + 2..] == c + CRLF + more
  {
    hide Digits, Value, Hex;
    var ds := Hex(|c|);
    var s := Chunk(c) + more;
    HexValue(|c|);
    assert s == ds + [CR] + ([LF] + c + CRLF + more);
    DigitsOf(ds, CR, [LF] + c + CRLF + more);
    assert s[..|ds|] == ds;
    assert s[|ds| + 2..] == c + CRLF + more;
  }

  lemma HeaderOfTerminator()
    ensures HasHeader(TERMINATOR) && Digits(TERMINATOR) == 1 && Value(TERMINATOR[..1]) == 0
  {
    assert TERMINATOR[1..][0] == 13;
    assert Digits(TERMINATOR[1..]) == 0;
    assert TERMINATOR[..1] == [48];
    assert [48][..0] == [];
  }

  /** What a reader finds when it expects a header. */
  lemma NextHeader(chunks: seq<bytes>)
    requires Acceptable(chunks)
    ensures var s := Encode(chunks) + TERMINATOR;
            && HasHeader(s)
            && (chunks == [] ==> Value(s[..Digits(s)]) == 0)
            && (chunks != [] ==>
                  && Value(s[..Digits(s)]) == |chunks[0]| > 0
                  && s[Digits(s) + 2..] == chunks[0] + CRLF + (Encode(chunks[1..]) + TERMINATOR))
  {
    hide *;
    if chunks == [] {
      EncodeNone();
      HeaderOfTerminator();
    } else {
      var c := FirstAcceptable(chunks);
      EncodeFirst(chunks);
      HeaderOf(c, Encode(chunks[1..]) + TERMINATOR);
    }
  }

  lemma EncodeNone()
    ensures Encode([]) + TERMINATOR == TERMINATOR
  {
  }

  lemma EncodeFirst(chunks: seq<bytes>)
    requires chunks != []
    ensures Encode(chunks) + TERMINATOR == Chunk(chunks[0]) + (Encode(chunks[1..]) + TERMINATOR)
  {
    hide Chunk, TERMINATOR;
  }

  lemma FirstAcceptable(chunks: seq<bytes>) returns (c: bytes)
    requires chunks != [] && Acceptable(chunks)
    ensures c == chunks[0] && 0 < |c| <= LIMIT
  {
    c := chunks[0];
    assert chunks[0] in chunks;
  }

  // ---------------------------------------------------------------- the reader

  /** A byte stream whose reads are short only at its end. */
  class Source {
    var rest: bytes

    constructor (s: bytes)
      ensures rest == s
    {
      rest := s;
    }

    method Read(n: nat) returns (data: bytes)
      modifies this
      ensures var k := if n <= |old(rest)| then n else |old(rest)|;
              data == old(rest)[..k] && rest == old(rest)[k..]
    {
      var k := if n <= |rest| then n else |rest|;
      data, rest := rest[..k], rest[k..];
    }
  }

  /** The header of a chunk at the front of `s`: its digits stand for an acceptable length. */
  predicate HasHeader(s: bytes) {
    var k := Digits(s);
    Value(s[..k]) <= LIMIT && k + 2 <= |s| && s[k] == CR && s[k + 1] == LF
  }

  class Unchunked {
    const stream: Source
    var bytesLeft: nat
    var bof: bool
    var eof: bool
    ghost var part: bytes
    ghost var chunks: seq<bytes>

    constructor (s: Source, ghost cs: seq<bytes>)
      ensures stream == s && bytesLeft == 0 && bof && !eof && part == [] && chunks == cs
    {
      stream, bytesLeft, bof, eof, part, chunks := s, 0, true, false, [], cs;
    }

    /** The stream holds the rest of the current chunk, the encoding of the chunks to come, and
        the terminator. */
    ghost predicate Carrying() reads this, stream {
      && Acceptable(chunks)
      && (eof ==> part == [] && chunks == [])
      && (!eof ==>
            && |part| == bytesLeft
            && (bof ==> part == [])
            && stream.rest == (if bof then [] else part + CRLF) + (Encode(chunks) + TERMINATOR))
    }

    /** What is still to be read. */
    ghost function Left(): bytes reads this {
      part + Payload(chunks)
    }

    method Expect(pattern: bytes) returns (ok: bool)
      modifies stream
      ensures ok <==> pattern <= old(stream.rest)
      ensures ok ==> stream.rest == old(stream.rest)[|pattern|..]
      ensures |stream.rest| <= |old(stream.rest)|
    {
      var data := stream.Read(|pattern|);
      return data == pattern;
    }

    /** Reads a chunk header. Succeeds exactly if there is one. */
    method ReadLength() returns (r: Reading<nat>)
      modifies stream
      ensures r.Good? <==> HasHeader(old(stream.rest))
      ensures r.Good? ==>
        var k := Digits(old(stream.rest));
        r.value == Value(old(stream.rest)[..k]) && stream.rest == old(stream.rest)[k + 2..]
      ensures |stream.rest| <= |old(stream.rest)|
      ensures r.Good? ==> |stream.rest| < |old(stream.rest)|
    {
      ghost var input := stream.rest;
      ghost var n := 0;
      var length := 0;
      while true
        invariant 0 <= n <= Digits(input) && stream.rest == input[n..]
        invariant length == Value(input[..n]) <= LIMIT
        decreases |stream.rest|
      {
        var data := stream.Read(1);
        if |data| != 1 { return Bad(PrematureEnd); }
        var c := data[0];
        if !IsDigit(c) && c != CR { return Bad(Unexpected); }
        if c == CR { break; }
        assert input[..n + 1][..n] == input[..n];
        length := 16 * length + DigitValue(c);
        n := n + 1;
        if length > LIMIT {
          ValueGrows(input[..Digits(input)], n);
          assert input[..Digits(input)][..n] == input[..n];
          return Bad(TooBig);
        }
      }
      var ok := Expect([LF]);
      if !ok { return Bad(Unexpected); }
      return Good(length);
    }

    /** Goes on to the next chunk. */
    method NextChunk() returns (r: Reading<nat>)
      requires !eof && bytesLeft == 0
      modifies this, stream
      ensures |stream.rest| <= |old(stream.rest)|
      ensures r.Good? ==> |stream.rest| < |old(stream.rest)|
      ensures old(Carrying()) ==> r.Good? && Carrying() && Left() == old(Left()) && (eof || bytesLeft > 0)
    {
      hide HasHeader, Digits, Value, Carrying, Left, Encode, Payload, Acceptable, TERMINATOR;
      ghost var carrying := Carrying();
      ghost var left := Left();
      if carrying { Boundary(); }
      if !bof {
        var ok := Expect([CR, LF]);
        if !ok { return Bad(Unexpected); }
      }
      r := ReadLength();
      if r.Bad? { return; }
      bytesLeft := r.value;
      if bytesLeft == 0 {
        eof := true;
      }
      bof := false;
      if carrying && chunks != [] {
        part, chunks := chunks[0], chunks[1..];
      }
      if carrying { Resumed(part, chunks, left); }
    }

    /** Between two chunks, and before the first, a header comes next. */
    lemma Boundary()
      requires Carrying() && !eof && bytesLeft == 0
      ensures part == [] && Acceptable(chunks) && Left() == Payload(chunks)
      ensures bof ==> stream.rest == Encode(chunks) + TERMINATOR
      ensures !bof ==> CRLF <= stream.rest && stream.rest[2..] == Encode(chunks) + TERMINATOR
      ensures var s := Encode(chunks) + TERMINATOR;
              && HasHeader(s)
              && (chunks == [] ==> Value(s[..Digits(s)]) == 0)
              && (chunks != [] ==>
                    && Value(s[..Digits(s)]) == |chunks[0]| > 0
                    && s[Digits(s) + 2..] == chunks[0] + CRLF + (Encode(chunks[1..]) + TERMINATOR))
      ensures chunks != [] ==> Acceptable(chunks[1..]) && Payload(chunks) == chunks[0] + Payload(chunks[1..])
    {
      hide Encode, HasHeader, Digits, Value;
      NextHeader(chunks);
      ghost var tail := Encode(chunks) + TERMINATOR;
      assert [] + tail == tail;
      assert [] + CRLF == CRLF;
      assert (CRLF + tail)[2..] == tail;
      assert [] + Payload(chunks) == Payload(chunks);
    }

    lemma Resumed(p: bytes, cs: seq<bytes>, left: bytes)
      requires part == p && chunks == cs && !bof && Acceptable(cs)
      requires |p| == bytesLeft && (eof <==> bytesLeft == 0) && (eof ==> cs == [])
      requires !eof ==> stream.rest == p + CRLF + (Encode(cs) + TERMINATOR)
      requires left == p + Payload(cs)
      ensures Carrying() && Left() == left
    {
    }

    /** Reads from the current chunk. */
    method TakePart(num: nat) returns (r: Reading<bytes>)
      requires !eof && 0 < num <= bytesLeft
      modifies this, stream
      ensures |stream.rest| <= |old(stream.rest)|
      ensures r.Good? ==> |stream.rest| < |old(stream.rest)| && |r.value| == num && !eof
      ensures old(Carrying()) ==>
        r.Good? && Carrying() && old(Left()) == r.value + Left()
    {
      hide Encode, Acceptable, Payload;
      ghost var carrying := Carrying();
      ghost var tail := Encode(chunks) + TERMINATOR;
      if carrying {
        assert stream.rest == part[..num] + (part[num..] + CRLF + tail);
      }
      var data := stream.Read(num);
      if |data| != num { return Bad(PrematureEnd); }
      bytesLeft := bytesLeft - num;
      if carrying {
        assert Left() == part[..num] + (part[num..] + Payload(chunks));
        part := part[num..];
      }
      return Good(data);
    }

    /** Reads up to `num` bytes of the decoded stream; fewer only at its end. */
    method Read(num: nat) returns (r: Reading<bytes>)
      modifies this, stream
      ensures r.Good? ==> |r.value| <= num && (|r.value| < num ==> eof)
      ensures |stream.rest| <= |old(stream.rest)|
      ensures r.Good? && r.value != [] ==> |stream.rest| < |old(stream.rest)|
      ensures old(Carrying()) ==>
        var k := if num <= |old(Left())| then num else |old(Left())|;
        && Carrying() && r == Good(old(Left())[..k]) && Left() == old(Left())[k..]
    {
      hide Carrying, Left;
      var result: bytes := [];
      var num': nat := num;
      ghost var all := Left();
      ghost var carrying := Carrying();
      while num' > 0
        invariant |result| + num' == num && num' >= 0
        invariant |stream.rest| <= |old(stream.rest)| && (result != [] ==> |stream.rest| < |old(stream.rest)|)
        invariant carrying ==> Carrying() && all == result + Left()
        decreases |stream.rest|
      {
        if eof {
          if carrying { NothingLeft(); }
          break;
        } else if bytesLeft == 0 {
          var n := NextChunk();
          if n.Bad? { return Bad(n.error); }
        } else {
          var chunkNum := if num' <= bytesLeft then num' else bytesLeft;
          var data := TakePart(chunkNum);
          if data.Bad? { return Bad(data.error); }
          if carrying { assert result + (data.value + Left()) == result + data.value + Left(); }
          result := result + data.value;
          num' := num' - chunkNum;
        }
      }
      if carrying { Prefix(all, result, Left(), num); }
      return Good(result);
    }

    lemma NothingLeft()
      requires Carrying() && eof
      ensures Left() == []
    {
    }
  }

  lemma Prefix(all: bytes, result: bytes, left: bytes, num: nat)
    requires all == result + left && |result| <= num && (|result| < num ==> left == [])
    ensures var k := if num <= |all| then num else |all|; result == all[..k] && left == all[k..]
  {
  }

  lemma {:induction false} ValueGrows(s: bytes, n: nat)
    requires AllDigits(s) && n <= |s|
    ensures Value(s[..n]) <= Value(s)
    decreases |s|
  {
    if n < |s| {
      ValueGrows(s[..|s| - 1], n);
      assert s[..|s| - 1][..n] == s[..n];
    } else {
      assert s[..n] == s;
    }
  }
}
