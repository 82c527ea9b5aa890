/** Sending a render job over a chunked connection, and receiving it at the other end. */
module TaggedStream {
  import opened ChunkedStream
  import opened RenderJob

  // ---------------------------------------------------------------- the sender

  /** A file open for reading. A read may return fewer bytes than asked for, but not none unless
      the end is reached. */
  class File {
    const data: bytes
    var pos: nat

    constructor (d: bytes)
      ensures data == d && pos == 0
    {
      data, pos := d, 0;
    }

    method Rewind()
      modifies this
      ensures pos == 0
    {
      pos := 0;
    }

    method Read(n: nat) returns (piece: bytes)
      requires pos <= |data|
      modifies this
      ensures pos <= |data| && old(pos) <= pos && piece == data[old(pos)..pos]
      ensures |piece| <= n && (n > 0 && old(pos) < |data| ==> |piece| > 0)
    {
      var most := if n <= |data| - pos then n else |data| - pos;
      var k: int := *;
      if !(0 < k <= most) { k := most; }
      piece := data[pos..pos + k];
      pos := pos + k;
    }
  }

  /** Paths of either kind under which an alias is remembered. */
  datatype PathKey = OrigPath(bytes) | AbsPath(string)

  datatype Request = Request(data: bytes, orig: bytes, abs: string)

  type Aliases = map<PathKey, bytes>

  /** The resource to be written for a request, if any. */
  function Needed(resourceId: string -> bytes, aliases: Aliases, q: Request): seq<Resource> {
    if AbsPath(q.abs) in aliases || OrigPath(q.orig) in aliases then []
    else [Resource(resourceId(q.abs), q.orig, q.data)]
  }

  function AliasesAfter(resourceId: string -> bytes, aliases: Aliases, q: Request): Aliases {
    if AbsPath(q.abs) in aliases || OrigPath(q.orig) in aliases then aliases
    else aliases[OrigPath(q.orig) := resourceId(q.abs)][AbsPath(q.abs) := resourceId(q.abs)]
  }

  /** All resources written for a list of requests. */
  function Bundle(resourceId: string -> bytes, aliases: Aliases, qs: seq<Request>): seq<Resource>
    decreases qs
  {
    if qs == [] then []
    else Needed(resourceId, aliases, qs[0]) + Bundle(resourceId, AliasesAfter(resourceId, aliases, qs[0]), qs[1..])
  }

  class Tagged {
    const out: Chunked
    const resourceId: string -> bytes
    var aliases: Aliases

    constructor (o: Chunked, id: string -> bytes)
      ensures out == o && resourceId == id && aliases == map[]
    {
      out, resourceId, aliases := o, id, map[];
    }

    ghost predicate Valid() reads this, out, out.conn {
      out.Valid() && Acceptable(out.chunks)
    }

    ghost function Sent(): bytes reads out {
      Payload(out.chunks)
    }

    method WriteData(tag: bytes, value: bytes) returns (e: Reading<bool>)
      requires Valid()
      modifies out, out.conn
      ensures Valid()
      ensures e.Good? <==> |tag| == 4 && |value| <= LIMIT
      ensures e.Good? ==> Sent() == old(Sent()) + PrintData(tag, value)
      ensures e.Bad? ==> Sent() == old(Sent())
    {
      hide Pack, Chunked.Valid, Payload;
      if |tag| != 4 { return Bad(IllegalLength); }
      if |value| > LIMIT { return Bad(TooBig); }
      out.Write(tag + Pack(|value|));
      out.Write(value);
      return Good(true);
    }

    method WriteInt(tag: bytes, value: int32) returns (e: Reading<bool>)
      requires Valid() && |tag| == 4
      modifies out, out.conn
      ensures Valid() && e.Good? && Sent() == old(Sent()) + PrintInt(tag, value)
    {
      FourBytes(value);
      e := WriteData(tag, PackInt(value));
    }

    /** Copies the remaining bytes of a file in pieces of at most 4096. */
    method Copy(f: File)
      requires Valid() && f.pos == 0
      modifies out, out.conn, f
      ensures Valid() && Sent() == old(Sent()) + f.data
    {
      hide Chunked.Valid, Payload;
      var length := |f.data|;
      while length > 0
        invariant Valid() && 0 <= length && f.pos + length == |f.data|
        invariant Sent() == old(Sent()) + f.data[..f.pos]
      {
        ghost var before := f.pos;
        var data := f.Read(if length <= 4096 then length else 4096);
        length := length - |data|;
        assert f.data[..f.pos] == f.data[..before] + data;
        out.Write(data);
      }
      assert f.data[..f.pos] == f.data;
    }

    method WriteFile(tag: bytes, f: File) returns (e: Reading<bool>)
      requires Valid()
      modifies out, out.conn, f
      ensures Valid()
      ensures e.Good? <==> |tag| == 4 && |f.data| <= LIMIT
      ensures e.Good? ==> Sent() == old(Sent()) + PrintData(tag, f.data)
      ensures e.Bad? ==> Sent() == old(Sent())
    {
      hide Pack, Chunked.Valid, Payload;
      if |tag| != 4 { return Bad(IllegalLength); }
      var length := |f.data|;
      if length > LIMIT { return Bad(TooBig); }
      f.Rewind();
      out.Write(tag + Pack(length));
      Copy(f);
      return Good(true);
    }

    /** Writes a resource unless its path is known already. The result is the alias, if known. */
    method WriteResource(f: File, orig: bytes, abs: string) returns (e: Reading<seq<bytes>>)
      requires Valid()
      modifies this, out, out.conn, f
      ensures Valid()
      ensures e.Good? ==>
        && var q := Request(f.data, orig, abs);
        && var rs := Needed(resourceId, old(aliases), q);
        && Printable(rs)
        && Sent() == old(Sent()) + PrintResources(rs)
        && aliases == AliasesAfter(resourceId, old(aliases), q)
        && (AbsPath(abs) in aliases ==> e.value == [aliases[AbsPath(abs)]])
      ensures e.Bad? ==> Sent() == old(Sent()) && aliases == old(aliases)
      ensures e.Bad? <==> !Printable(Needed(resourceId, old(aliases), Request(f.data, orig, abs)))
    {
      hide Pack, Chunked.Valid, Payload;
      if AbsPath(abs) in aliases { return Good([aliases[AbsPath(abs)]]); }
      if OrigPath(orig) in aliases { return Good([]); }
      var alias := resourceId(abs);
      f.Rewind();
      var fileLength := |f.data|;
      var chunkLength := fileLength + |orig| + |alias| + 12;
      var r := Resource(alias, orig, f.data);
      assert r in [r];
      if chunkLength > LIMIT { return Bad(TooBig); }
      aliases := aliases[OrigPath(orig) := alias];
      WriteParts(f, r);
      aliases := aliases[AbsPath(abs) := alias];
      assert PrintResources([r]) == PrintResource(r) by { assert [r][1..] == []; }
      return Good([alias]);
    }

    method WriteParts(f: File, r: Resource)
      requires Valid() && f.pos == 0 && f.data == r.data && ChunkLength(r) <= LIMIT
      modifies out, out.conn, f
      ensures Valid() && Sent() == old(Sent()) + PrintResource(r)
    {
      hide Pack, Chunked.Valid, Payload, Acceptable;
      out.Write(RSRC + Pack(ChunkLength(r)));
      out.Write(Pack(|r.alias|));
      out.Write(r.alias);
      out.Write(Pack(|r.orig|));
      out.Write(r.orig);
      out.Write(Pack(|r.data|));
      Copy(f);
      PiecesOfResource(old(Sent()), r);
    }
  }

  lemma PiecesOfResource(sent: bytes, r: Resource)
    requires ChunkLength(r) <= LIMIT
    ensures sent + (RSRC + Pack(ChunkLength(r))) + Pack(|r.alias|) + r.alias + Pack(|r.orig|) + r.orig + Pack(|r.data|) + r.data
         == sent + PrintResource(r)
  {
    hide Pack;
  }

  lemma BundleSnoc(id: string -> bytes, aliases: Aliases, qs: seq<Request>, i: nat, known: Aliases)
    requires i < |qs| && known == AliasesOf(id, aliases, qs[..i])
    ensures Bundle(id, aliases, qs[..i + 1]) == Bundle(id, aliases, qs[..i]) + Needed(id, known, qs[i])
    ensures AliasesAfter(id, known, qs[i]) == AliasesOf(id, aliases, qs[..i + 1])
    decreases i
  {
    assert qs[..i + 1][0] == qs[0];
    assert qs[..i + 1][1..] == qs[1..][..i];
    if i > 0 {
      assert qs[..i][1..] == qs[1..][..i - 1];
      BundleSnoc(id, AliasesAfter(id, aliases, qs[0]), qs[1..], i - 1, known);
    }
  }

  function AliasesOf(id: string -> bytes, aliases: Aliases, qs: seq<Request>): Aliases
    decreases qs
  {
    if qs == [] then aliases else AliasesOf(id, AliasesAfter(id, aliases, qs[0]), qs[1..])
  }

  lemma {:induction false} PrintJoin(rs: seq<Resource>, ss: seq<Resource>)
    requires Printable(rs) && Printable(ss)
    ensures Printable(rs + ss) && PrintResources(rs + ss) == PrintResources(rs) + PrintResources(ss)
  {
    hide PrintResource;
    if rs == [] {
      assert rs + ss == ss;
    } else {
      PrintJoin(rs[1..], ss);
      assert (rs + ss)[1..] == rs[1..] + ss;
      assert (rs + ss)[0] == rs[0];
    }
  }

  /** What the sender is asked to send. */
  datatype Order = Order(xmin: int32, ymin: int32, xmax: int32, ymax: int32, frame: int32,
                         requests: seq<Request>, blend: bytes)

  function JobOf(id: string -> bytes, o: Order): Job {
    Job(o.xmin, o.ymin, o.xmax, o.ymax, o.frame, Bundle(id, map[], o.requests), o.blend)
  }

  /** Nothing is too big to be written. */
  predicate Sendable(id: string -> bytes, o: Order) {
    Printable(Bundle(id, map[], o.requests)) && |o.blend| <= LIMIT
  }

  method BundleResources(t: Tagged, qs: seq<Request>) returns (e: Reading<bool>)
    requires t.Valid() && t.aliases == map[]
    modifies t, t.out, t.out.conn
    ensures t.Valid()
    ensures e.Good? <==> Printable(Bundle(t.resourceId, map[], qs))
    ensures e.Good? ==> t.Sent() == old(t.Sent()) + PrintResources(Bundle(t.resourceId, map[], qs))
  {
    hide Tagged.Valid, Tagged.Sent, Printable, PrintResources, Needed, AliasesAfter, Bundle, AliasesOf;
    var i := 0;
    ghost var id := t.resourceId;
    NothingBundled(id, qs);
    assert old(t.Sent()) + [] == old(t.Sent());
    while i < |qs|
      invariant 0 <= i <= |qs| && t.Valid() && t.resourceId == id
      invariant t.aliases == AliasesOf(id, map[], qs[..i])
      invariant Printable(Bundle(id, map[], qs[..i]))
      invariant t.Sent() == old(t.Sent()) + PrintResources(Bundle(id, map[], qs[..i]))
    {
      ghost var known, done := t.aliases, Bundle(id, map[], qs[..i]);
      var r := BundleOne(t, qs[i]);
      BundleSnoc(id, map[], qs, i, known);
      if r.Bad? {
        NotPrintable(id, map[], qs, i, Needed(id, known, qs[i]));
        return Bad(r.error);
      }
      PrintJoin(done, Needed(id, known, qs[i]));
      i := i + 1;
    }
    assert qs[..i] == qs;
    return Good(true);
  }

  method BundleOne(t: Tagged, q: Request) returns (r: Reading<seq<bytes>>)
    requires t.Valid()
    modifies t, t.out, t.out.conn
    ensures t.Valid()
    ensures r.Good? <==> Printable(Needed(t.resourceId, old(t.aliases), q))
    ensures r.Good? ==> t.Sent() == old(t.Sent()) + PrintResources(Needed(t.resourceId, old(t.aliases), q))
    ensures r.Good? ==> t.aliases == AliasesAfter(t.resourceId, old(t.aliases), q)
  {
    hide Tagged.Valid, Tagged.Sent, Printable, PrintResources, Needed, AliasesAfter;
    var f := new File(q.data);
    r := t.WriteResource(f, q.orig, q.abs);
    assert Request(f.data, q.orig, q.abs) == q;
  }

  lemma NothingBundled(id: string -> bytes, qs: seq<Request>)
    ensures Printable(Bundle(id, map[], qs[..0])) && PrintResources(Bundle(id, map[], qs[..0])) == []
    ensures AliasesOf(id, map[], qs[..0]) == map[]
  {
  }

  lemma NotPrintable(id: string -> bytes, aliases: Aliases, qs: seq<Request>, i: nat, more: seq<Resource>)
    requires i < |qs| && !Printable(more)
    requires Bundle(id, aliases, qs[..i + 1]) == Bundle(id, aliases, qs[..i]) + more
    ensures !Printable(Bundle(id, aliases, qs))
  {
    var r :| r in more && ChunkLength(r) > LIMIT;
    assert r in Bundle(id, aliases, qs[..i + 1]);
    BundlePrefix(id, aliases, qs, i + 1);
  }

  lemma {:induction false} BundlePrefix(id: string -> bytes, aliases: Aliases, qs: seq<Request>, n: nat)
    requires n <= |qs|
    ensures forall r :: r in Bundle(id, aliases, qs[..n]) ==> r in Bundle(id, aliases, qs)
    decreases |qs| - n
  {
    if n < |qs| {
      BundleSnoc(id, aliases, qs, n, AliasesOf(id, aliases, qs[..n]));
      BundlePrefix(id, aliases, qs, n + 1);
    } else {
      assert qs[..n] == qs;
    }
  }

  /** Sends a render job. The chunked stream is terminated whether or not that succeeds. */
  method Dispatch(conn: Connection, id: string -> bytes, o: Order) returns (e: Reading<bool>, ghost chunks: seq<bytes>)
    requires conn.sent == []
    modifies conn
    ensures e.Good? <==> Sendable(id, o)
    ensures conn.sent == Encode(chunks) + TERMINATOR && Acceptable(chunks)
    ensures e.Good? ==> Payload(chunks) == Print(JobOf(id, o))
  {
    hide Payload, PrintInt, PrintData, PrintResources, Printable, Bundle, Encode;
    StartEmpty();
    var chunked := new Chunked(conn);
    var tagged := new Tagged(chunked, id);
    e := WriteAll(tagged, o);
    chunked.Close();
    chunks := chunked.chunks;
  }

  lemma StartEmpty()
    ensures Encode([]) == [] && Payload([]) == [] && Acceptable([])
  {
  }

  method WriteAll(t: Tagged, o: Order) returns (e: Reading<bool>)
    requires t.Valid() && t.aliases == map[] && t.Sent() == []
    modifies t, t.out, t.out.conn
    ensures t.Valid()
    ensures e.Good? <==> Sendable(t.resourceId, o)
    ensures e.Good? ==> t.Sent() == Print(JobOf(t.resourceId, o))
  {
    hide Tagged.Valid, Tagged.Sent, PrintInt, PrintData, PrintResources, Printable, Bundle;
    e := t.WriteInt(XMIN, o.xmin);
    e := t.WriteInt(YMIN, o.ymin);
    e := t.WriteInt(XMAX, o.xmax);
    e := t.WriteInt(YMAX, o.ymax);
    e := t.WriteInt(FRAM, o.frame);
    assert t.Sent() == PrintHead(JobOf(t.resourceId, o)) by {
      assert [] + PrintInt(XMIN, o.xmin) == PrintInt(XMIN, o.xmin);
    }
    e := BundleResources(t, o.requests);
    if e.Bad? { return; }
    var file := new File(o.blend);
    e := t.WriteFile(BLEN, file);
  }

  // ---------------------------------------------------------------- the receiver

  /** What was read from the stream is what the parser takes from the remaining payload. */
  ghost predicate Agrees<T(!new)>(got: Reading<T>, spec: Reading<(T, bytes)>, r: Unchunked)
    reads r, r.stream
  {
    match spec
    case Good((x, rest)) => got == Good(x) && r.Carrying() && r.Left() == rest
    case Bad(e) => got == Bad(e)
  }

  method ReadExactly(r: Unchunked, length: nat) returns (data: Reading<bytes>)
    modifies r, r.stream
    ensures data.Good? ==> |data.value| == length
    ensures old(r.Carrying()) ==> Agrees(data, Take(old(r.Left()), length), r)
    ensures |r.stream.rest| <= |old(r.stream.rest)|
  {
    hide Unchunked.Carrying, Unchunked.Left;
    data := r.Read(length);
    if data.Good? && |data.value| != length {
      return Bad(PrematureEnd);
    }
  }

  method ReadNumber(r: Unchunked) returns (n: Reading<nat>)
    modifies r, r.stream
    ensures old(r.Carrying()) ==> Agrees(n, TakeNumber(old(r.Left())), r)
    ensures |r.stream.rest| <= |old(r.stream.rest)|
  {
    hide Unchunked.Carrying, Unchunked.Left, Unpack;
    var data := ReadExactly(r, 4);
    if data.Bad? { return Bad(data.error); }
    return Good(Unpack(data.value));
  }

  method ReadInt(r: Unchunked, length: nat) returns (v: Reading<int32>)
    modifies r, r.stream
    ensures old(r.Carrying()) ==> Agrees(v, ParseInt(old(r.Left()), length), r)
    ensures |r.stream.rest| <= |old(r.stream.rest)|
  {
    hide Unchunked.Carrying, Unchunked.Left, UnpackInt;
    if length != 4 { return Bad(IllegalLength); }
    var data := ReadExactly(r, length);
    if data.Bad? { return Bad(data.error); }
    return Good(UnpackInt(data.value));
  }

  method ReadResource(utf8: bytes -> bool, r: Unchunked, length0: nat) returns (res: Reading<Resource>)
    modifies r, r.stream
    ensures old(r.Carrying()) ==> Agrees(res, ParseResource(utf8, old(r.Left()), length0), r)
    ensures |r.stream.rest| <= |old(r.stream.rest)|
  {
    hide Unchunked.Carrying, Unchunked.Left, Take, TakeNumber, IsAlias;
    var length: int := length0;
    if !(12 <= length <= LIMIT) { return Bad(OutOfRange); }
    var aliasLength :- ReadNumber(r);
    if !(1 <= aliasLength <= 127) { return Bad(OutOfRange); }
    length := length - (4 + aliasLength);
    if length < 0 { return Bad(Inconsistent); }
    var alias :- ReadExactly(r, aliasLength);
    if !IsAlias(alias) { return Bad(IllegalAlias); }
    var origLength :- ReadNumber(r);
    if !(1 <= origLength <= 1023) { return Bad(OutOfRange); }
    length := length - (4 + origLength);
    if length < 0 { return Bad(Inconsistent); }
    var orig :- ReadExactly(r, origLength);
    if !utf8(orig) { return Bad(IllegalName); }
    var dataLength :- ReadNumber(r);
    if !(0 <= dataLength <= LIMIT) { return Bad(OutOfRange); }
    length := length - (4 + dataLength);
    if length < 0 { return Bad(Inconsistent); }
    var data :- ReadExactly(r, dataLength);
    if length != 0 { return Bad(OutOfRange); }
    return Good(Resource(alias, orig, data));
  }

  /** Reads fields until the end of the stream. */
  method Work(utf8: bytes -> bool, rfile: Unchunked) returns (res: Reading<Received>)
    modifies rfile, rfile.stream
    ensures old(rfile.Carrying()) ==> res == Parse(utf8, START, old(rfile.Left()))
    ensures old(rfile.Carrying()) && res.Good? ==> rfile.Carrying() && rfile.Left() == [] && rfile.eof
  {
    hide Unchunked.Carrying, Unchunked.Left, Take, ParseField, TakeNumber, Parse;
    var st := START;
    ghost var carrying, all := rfile.Carrying(), rfile.Left();
    while true
      invariant carrying ==> rfile.Carrying() && Parse(utf8, START, all) == Parse(utf8, st, rfile.Left())
      decreases |rfile.stream.rest|
    {
      ghost var left := rfile.Left();
      var tag :- rfile.Read(4);
      if |tag| == 0 {
        if carrying { ParseEnd(utf8, st, left); }
        return Good(st.job);
      }
      if |tag| != 4 {
        if carrying { ParseCut(utf8, st, left); }
        return Bad(PrematureEnd);
      }
      ghost var after := rfile.Left();
      if carrying { ParseNext(utf8, st, left); }
      var next := WorkField(utf8, rfile, st, tag);
      if next.Bad? { return Bad(next.error); }
      st := next.value;
    }
  }

  lemma ParseEnd(utf8: bytes -> bool, st: Progress, left: bytes)
    requires |left[..if 4 <= |left| then 4 else |left|]| == 0
    ensures left == [] && Parse(utf8, st, left) == Good(st.job)
  {
  }

  lemma ParseCut(utf8: bytes -> bool, st: Progress, left: bytes)
    requires 0 < |left| < 4
    ensures Parse(utf8, st, left) == Bad(PrematureEnd)
  {
  }

  lemma ParseNext(utf8: bytes -> bool, st: Progress, left: bytes)
    requires |left| >= 4
    ensures match ParseField(utf8, st, left[..4], left[4..])
            case Good((st', rest)) => Parse(utf8, st, left) == Parse(utf8, st', rest)
            case Bad(e) => Parse(utf8, st, left) == Bad(e)
  {
    hide ParseField;
  }

  /** Handles one field. */
  method WorkField(utf8: bytes -> bool, rfile: Unchunked, st: Progress, tag: bytes) returns (next: Reading<Progress>)
    modifies rfile, rfile.stream
    ensures old(rfile.Carrying()) ==> Agrees(next, ParseField(utf8, st, tag, old(rfile.Left())), rfile)
    ensures |rfile.stream.rest| <= |old(rfile.stream.rest)|
  {
    hide Unchunked.Carrying, Unchunked.Left, Take, TakeNumber, ParseInt, ParseResource;
    if st.done { return Bad(TagAfterEnd); }
    if tag != RSRC && tag in st.seen { return Bad(TagRepeated); }
    var st' := st.(seen := st.seen + {tag});
    var length :- ReadNumber(rfile);
    var job := st.job;
    if tag == XMIN {
      var v :- ReadInt(rfile, length);
      return Good(st'.(job := job.(xmin := v)));
    } else if tag == XMAX {
      var v :- ReadInt(rfile, length);
      return Good(st'.(job := job.(xmax := v)));
    } else if tag == YMIN {
      var v :- ReadInt(rfile, length);
      return Good(st'.(job := job.(ymin := v)));
    } else if tag == YMAX {
      var v :- ReadInt(rfile, length);
      return Good(st'.(job := job.(ymax := v)));
    } else if tag == FRAM {
      var v :- ReadInt(rfile, length);
      return Good(st'.(job := job.(frame := v)));
    } else if tag == RSRC {
      if st.count == 1000 { return Bad(TooManyResources); }
      var v :- ReadResource(utf8, rfile, length);
      return Good(st'.(job := job.(resources := job.resources + [v]), count := st.count + 1));
    } else if tag == BLEN {
      var v :- ReadExactly(rfile, length);
      return Good(st'.(job := job.(blend := job.blend + [v]), done := true));
    } else {
      return Bad(UnknownTag);
    }
  }

  // ---------------------------------------------------------------- end to end

  /** The receiver accepts every resource, and there are not too many. */
  predicate Receivable(utf8: bytes -> bool, id: string -> bytes, o: Order) {
    && (forall r :: r in Bundle(id, map[], o.requests) ==> Transportable(utf8, r))
    && |Bundle(id, map[], o.requests)| <= 1000
  }

  /** Whatever the sender accepts, cut into writes and reads in any way, is received as it was
      sent, and the stream ends cleanly; unless the receiver has reason to refuse it. */
  method Transmit(utf8: bytes -> bool, id: string -> bytes, o: Order) returns (res: Reading<Received>)
    requires Sendable(id, o)
    ensures Receivable(utf8, id, o) ==>
      res == Good(Received(o.xmin, o.ymin, o.xmax, o.ymax, o.frame, Bundle(id, map[], o.requests), [o.blend]))
    ensures !Receivable(utf8, id, o) ==> res.Bad?
  {
    hide Parse, Print, Bundle, Transportable, Encode, Payload;
    var conn := new Connection();
    var e;
    ghost var chunks;
    e, chunks := Dispatch(conn, id, o);
    var source := new Source(conn.sent);
    var rfile := new Unchunked(source, chunks);
    assert rfile.Carrying() && rfile.Left() == Print(JobOf(id, o)) by {
      assert [] + (Encode(chunks) + TERMINATOR) == conn.sent;
      assert [] + Payload(chunks) == Payload(chunks);
    }
    res := Work(utf8, rfile);
    if Receivable(utf8, id, o) {
      RoundTrip(utf8, JobOf(id, o));
    } else {
      RoundTripRefused(utf8, JobOf(id, o));
    }
  }

  // ---------------------------------------------------------------- what a bundle holds

  /** No path is bundled twice, and none that was known before. */
  lemma {:induction false} BundledOnce(id: string -> bytes, aliases: Aliases, qs: seq<Request>)
    ensures var rs := Bundle(id, aliases, qs);
      && (forall r :: r in rs ==> OrigPath(r.orig) !in aliases)
      && (forall i, j :: 0 <= i < j < |rs| ==> rs[i].orig != rs[j].orig)
    decreases qs
  {
    if qs != [] {
      BundledOnce(id, AliasesAfter(id, aliases, qs[0]), qs[1..]);
    }
  }

  /** A resource that stands for a request: that of a request with the same path. */
  ghost predicate Covered(id: string -> bytes, qs: seq<Request>, rs: seq<Resource>, q: Request) {
    exists p :: p in qs && (p.orig == q.orig || p.abs == q.abs) && Resource(id(p.abs), p.orig, p.data) in rs
  }

  /** Every request has its resource bundled, or its path was known before. */
  lemma {:induction false} BundledAll(id: string -> bytes, aliases: Aliases, qs: seq<Request>, q: Request)
    requires q in qs
    ensures AbsPath(q.abs) in aliases || OrigPath(q.orig) in aliases || Covered(id, qs, Bundle(id, aliases, qs), q)
    decreases qs
  {
    var first := qs[0];
    var known := AliasesAfter(id, aliases, first);
    var rest := Bundle(id, known, qs[1..]);
    if q == first {
      if Needed(id, aliases, q) != [] {
        assert Resource(id(q.abs), q.orig, q.data) in Bundle(id, aliases, qs);
      }
    } else {
      BundledAll(id, known, qs[1..], q);
      if Covered(id, qs[1..], rest, q) {
        var p :| p in qs[1..] && (p.orig == q.orig || p.abs == q.abs) && Resource(id(p.abs), p.orig, p.data) in rest;
        assert p in qs;
      } else if AbsPath(q.abs) !in aliases && OrigPath(q.orig) !in aliases {
        assert Resource(id(first.abs), first.orig, first.data) in Bundle(id, aliases, qs);
      }
    }
  }
}
