/** The format of a render job: a sequence of tagged fields. This is what printer and parser
    of the stream agree on. */
module RenderJob {
  import opened ChunkedStream

  type int32 = x: int | -0x8000_0000 <= x < 0x8000_0000

  const XMIN: bytes := [120, 109, 105, 110]
  const YMIN: bytes := [121, 109, 105, 110]
  const XMAX: bytes := [120, 109, 97, 120]
  const YMAX: bytes := [121, 109, 97, 120]
  const FRAM: bytes := [102, 114, 97, 109]
  const RSRC: bytes := [114, 115, 114, 99]
  const BLEN: bytes := [98, 108, 101, 110]

  datatype Resource = Resource(alias: bytes, orig: bytes, data: bytes)

  datatype Job = Job(xmin: int32, ymin: int32, xmax: int32, ymax: int32, frame: int32,
                     resources: seq<Resource>, blend: bytes)

  /** What the receiver knows so far. Fields that are never sent keep their defaults. */
  datatype Received = Received(xmin: int32, ymin: int32, xmax: int32, ymax: int32, frame: int32,
                               resources: seq<Resource>, blend: seq<bytes>)

  const DEFAULTS := Received(0, 0, 63, 63, 1, [], [])

  // ---------------------------------------------------------------- numbers

  /** Four bytes, most significant first. */
  function Pack(n: int): (r: bytes)
    requires 0 <= n < 0x1_0000_0000
    ensures |r| == 4
  {
    [n / 256 / 256 / 256, n / 256 / 256 % 256, n / 256 % 256, n % 256]
  }

  function Unpack(s: bytes): (n: int)
    requires |s| == 4
    ensures 0 <= n < 0x1_0000_0000
  {
    var a: int, b: int, c: int, d: int := s[0], s[1], s[2], s[3];
    ((a * 256 + b) * 256 + c) * 256 + d
  }

  lemma PackUnpack(n: int)
    requires 0 <= n < 0x1_0000_0000
    ensures Unpack(Pack(n)) == n
  {
  }

  function PackInt(v: int32): bytes {
    Pack(if v < 0 then v + 0x1_0000_0000 else v)
  }

  function UnpackInt(s: bytes): int32
    requires |s| == 4
  {
    var n := Unpack(s);
    if n >= 0x8000_0000 then n - 0x1_0000_0000 else n
  }

  lemma PackUnpackInt(v: int32)
    ensures UnpackInt(PackInt(v)) == v
  {
    PackUnpack(if v < 0 then v + 0x1_0000_0000 else v);
  }

  // ---------------------------------------------------------------- printing

  function PrintData(tag: bytes, value: bytes): bytes
    requires |value| <= LIMIT
  {
    tag + Pack(|value|) + value
  }

  function PrintInt(tag: bytes, value: int32): bytes {
    PrintData(tag, PackInt(value))
  }

  function ChunkLength(r: Resource): nat {
    |r.data| + |r.orig| + |r.alias| + 12
  }

  function PrintResource(r: Resource): bytes
    requires ChunkLength(r) <= LIMIT
  {
    RSRC + Pack(ChunkLength(r)) + Pack(|r.alias|) + r.alias + Pack(|r.orig|) + r.orig + Pack(|r.data|) + r.data
  }

  predicate Printable(rs: seq<Resource>) {
    forall r :: r in rs ==> ChunkLength(r) <= LIMIT
  }

  function PrintResources(rs: seq<Resource>): bytes
    requires Printable(rs)
  {
    if rs == [] then [] else PrintResource(rs[0]) + PrintResources(rs[1..])
  }

  function PrintHead(job: Job): bytes {
    PrintInt(XMIN, job.xmin) + PrintInt(YMIN, job.ymin) + PrintInt(XMAX, job.xmax) + PrintInt(YMAX, job.ymax) +
    PrintInt(FRAM, job.frame)
  }

  function Print(job: Job): bytes
    requires Printable(job.resources) && |job.blend| <= LIMIT
  {
    PrintHead(job) + PrintResources(job.resources) + PrintData(BLEN, job.blend)
  }

  // ---------------------------------------------------------------- parsing

  function Check(condition: bool, error: StreamError): Reading<bool> {
    if condition then Good(true) else Bad(error)
  }

  function Take(p: bytes, n: nat): (r: Reading<(bytes, bytes)>)
    ensures r.Good? ==> r.value.0 + r.value.1 == p && |r.value.0| == n
  {
    if n <= |p| then Good((p[..n], p[n..])) else Bad(PrematureEnd)
  }

  function TakeNumber(p: bytes): (r: Reading<(nat, bytes)>)
    ensures r.Good? ==> |r.value.1| + 4 == |p|
  {
    var t :- Take(p, 4);
    Good((Unpack(t.0), t.1))
  }

  predicate IsAlias(s: bytes) {
    forall c :: c in s ==> 97 <= c <= 122 || 48 <= c <= 57
  }

  /** A resource chunk of the given length, after its tag and length. `utf8` tells which names
      can be decoded. */
  function ParseResource(utf8: bytes -> bool, p: bytes, length: int): (r: Reading<(Resource, bytes)>)
    ensures r.Good? ==> |r.value.1| <= |p|
  {
    var _ :- Check(12 <= length <= LIMIT, OutOfRange);
    var aliasLength :- TakeNumber(p);
    var _ :- Check(1 <= aliasLength.0 <= 127, OutOfRange);
    var length1 := length - (4 + aliasLength.0);
    var _ :- Check(length1 >= 0, Inconsistent);
    var alias :- Take(aliasLength.1, aliasLength.0);
    var _ :- Check(IsAlias(alias.0), IllegalAlias);
    var origLength :- TakeNumber(alias.1);
    var _ :- Check(1 <= origLength.0 <= 1023, OutOfRange);
    var length2 := length1 - (4 + origLength.0);
    var _ :- Check(length2 >= 0, Inconsistent);
    var orig :- Take(origLength.1, origLength.0);
    var _ :- Check(utf8(orig.0), IllegalName);
    var dataLength :- TakeNumber(orig.1);
    var _ :- Check(dataLength.0 <= LIMIT, OutOfRange);
    var length3 := length2 - (4 + dataLength.0);
    var _ :- Check(length3 >= 0, Inconsistent);
    var data :- Take(dataLength.1, dataLength.0);
    var _ :- Check(length3 == 0, OutOfRange);
    Good((Resource(alias.0, orig.0, data.0), data.1))
  }

  function ParseInt(p: bytes, length: nat): (r: Reading<(int32, bytes)>)
    ensures r.Good? ==> |r.value.1| <= |p|
  {
    var _ :- Check(length == 4, IllegalLength);
    var t :- Take(p, 4);
    Good((UnpackInt(t.0), t.1))
  }

  datatype Progress = Progress(job: Received, seen: set<bytes>, count: nat, done: bool)

  const START := Progress(DEFAULTS, {}, 0, false)

  /** One field, after its tag. */
  function ParseField(utf8: bytes -> bool, st: Progress, tag: bytes, p: bytes): (r: Reading<(Progress, bytes)>)
    ensures r.Good? ==> |r.value.1| <= |p|
  {
    var _ :- Check(!st.done, TagAfterEnd);
    var _ :- Check(tag == RSRC || tag !in st.seen, TagRepeated);
    var st' := st.(seen := st.seen + {tag});
    var l :- TakeNumber(p);
    if tag == XMIN then
      var v :- ParseInt(l.1, l.0);
      Good((st'.(job := st.job.(xmin := v.0)), v.1))
    else if tag == XMAX then
      var v :- ParseInt(l.1, l.0);
      Good((st'.(job := st.job.(xmax := v.0)), v.1))
    else if tag == YMIN then
      var v :- ParseInt(l.1, l.0);
      Good((st'.(job := st.job.(ymin := v.0)), v.1))
    else if tag == YMAX then
      var v :- ParseInt(l.1, l.0);
      Good((st'.(job := st.job.(ymax := v.0)), v.1))
    else if tag == FRAM then
      var v :- ParseInt(l.1, l.0);
      Good((st'.(job := st.job.(frame := v.0)), v.1))
    else if tag == RSRC then
      var _ :- Check(st.count != 1000, TooManyResources);
      var v :- ParseResource(utf8, l.1, l.0);
      Good((st'.(job := st.job.(resources := st.job.resources + [v.0]), count := st.count + 1), v.1))
    else if tag == BLEN then
      var v :- Take(l.1, l.0);
      Good((st'.(job := st.job.(blend := st.job.blend + [v.0]), done := true), v.1))
    else Bad(UnknownTag)
  }

  /** All remaining fields. */
  function Parse(utf8: bytes -> bool, st: Progress, p: bytes): Reading<Received>
    decreases |p|
  {
    if p == [] then Good(st.job) else
    var tag :- Take(p, 4);
    var r :- ParseField(utf8, st, tag.0, tag.1);
    Parse(utf8, r.0, r.1)
  }

  // ---------------------------------------------------------------- the round trip

  lemma TakeFront(a: bytes, b: bytes)
    ensures Take(a + b, |a|) == Good((a, b))
  {
  }

  lemma TakePacked(n: int, b: bytes)
    requires 0 <= n < 0x1_0000_0000
    ensures TakeNumber(Pack(n) + b) == Good((n, b))
  {
    PackUnpack(n);
    TakeFront(Pack(n), b);
  }

  /** Resources that both sides can handle. */
  predicate Transportable(utf8: bytes -> bool, r: Resource) {
    && ChunkLength(r) <= LIMIT
    && 1 <= |r.alias| <= 127 && IsAlias(r.alias)
    && 1 <= |r.orig| <= 1023 && utf8(r.orig)
  }

  lemma ResourceRoundTrip(utf8: bytes -> bool, r: Resource, more: bytes)
    requires Transportable(utf8, r)
    ensures ParseResource(utf8, Pack(|r.alias|) + (r.alias + (Pack(|r.orig|) + (r.orig + (Pack(|r.data|) + (r.data + more))))),
                          ChunkLength(r)) == Good((r, more))
  {
    hide Pack, Unpack, Take, TakeNumber;
    var p5 := r.data + more;
    var p4 := Pack(|r.data|) + p5;
    var p3 := r.orig + p4;
    var p2 := Pack(|r.orig|) + p3;
    var p1 := r.alias + p2;
    TakePacked(|r.alias|, p1);
    TakeFront(r.alias, p2);
    TakePacked(|r.orig|, p3);
    TakeFront(r.orig, p4);
    TakePacked(|r.data|, p5);
    TakeFront(r.data, more);
  }

  /** A field is its tag followed by what is parsed after the tag. */
  lemma FieldStep(utf8: bytes -> bool, st: Progress, tag: bytes, p: bytes, st': Progress, rest: bytes)
    requires |tag| == 4 && ParseField(utf8, st, tag, p) == Good((st', rest))
    ensures Parse(utf8, st, tag + p) == Parse(utf8, st', rest)
  {
    hide ParseField;
    TakeFront(tag, p);
  }

  lemma IntField(v: int32, more: bytes)
    ensures TakeNumber(Pack(4) + (PackInt(v) + more)) == Good((4, PackInt(v) + more))
    ensures ParseInt(PackInt(v) + more, 4) == Good((v, more))
  {
    TakePacked(4, PackInt(v) + more);
    TakeFront(PackInt(v), more);
    PackUnpackInt(v);
  }

  /** The receiver's progress after some resources. */
  function Gained(st: Progress, rs: seq<Resource>): Progress {
    Progress(st.job.(resources := st.job.resources + rs), st.seen + (if rs == [] then {} else {RSRC}),
             st.count + |rs|, false)
  }

  lemma ResourceStep(utf8: bytes -> bool, st: Progress, r: Resource, more: bytes)
    requires Transportable(utf8, r) && !st.done && st.count < 1000
    ensures Parse(utf8, st, PrintResource(r) + more) ==
            Parse(utf8, Gained(st, [r]), more)
  {
    hide Pack, ParseResource, TakeNumber;
    var p := Pack(|r.alias|) + (r.alias + (Pack(|r.orig|) + (r.orig + (Pack(|r.data|) + (r.data + more)))));
    TakePacked(ChunkLength(r), p);
    ResourceRoundTrip(utf8, r, more);
    var st' := Gained(st, [r]);
    assert ParseField(utf8, st, RSRC, Pack(ChunkLength(r)) + p) == Good((st', more));
    FieldStep(utf8, st, RSRC, Pack(ChunkLength(r)) + p, st', more);
    Associate(r, more);
  }

  lemma Associate(r: Resource, more: bytes)
    requires ChunkLength(r) <= LIMIT
    ensures PrintResource(r) + more ==
            RSRC + (Pack(ChunkLength(r)) + (Pack(|r.alias|) + (r.alias + (Pack(|r.orig|) + (r.orig + (Pack(|r.data|) + (r.data + more)))))))
  {
    hide Pack;
    Flatten8(RSRC, Pack(ChunkLength(r)), Pack(|r.alias|), r.alias, Pack(|r.orig|), r.orig, Pack(|r.data|), r.data, more);
  }

  lemma Flatten8(a: bytes, b: bytes, c: bytes, d: bytes, e: bytes, f: bytes, g: bytes, h: bytes, i: bytes)
    ensures a + b + c + d + e + f + g + h + i == a + (b + (c + (d + (e + (f + (g + (h + i)))))))
  {
    Flatten4(e, f, g, h, i);
    Flatten4(a, b, c, d, e + (f + (g + (h + i))));
    var abcd := a + b + c + d;
    Flatten4(abcd, e, f, g, h + i);
    assert abcd + e + f + g + h + i == abcd + e + f + g + (h + i);
  }

  lemma Flatten4(a: bytes, b: bytes, c: bytes, d: bytes, e: bytes)
    ensures a + b + c + d + e == a + (b + (c + (d + e)))
  {
    assert c + d + e == c + (d + e);
    assert a + b + (c + (d + e)) == a + (b + (c + (d + e)));
    assert a + b + c + d + e == a + b + (c + d + e);
  }

  lemma GainedFirst(st: Progress, rs: seq<Resource>)
    requires rs != [] && !st.done
    ensures Gained(Gained(st, [rs[0]]), rs[1..]) == Gained(st, rs)
  {
    assert st.job.resources + [rs[0]] + rs[1..] == st.job.resources + rs;
    assert st.seen + {RSRC} + {RSRC} == st.seen + {RSRC};
  }

  lemma GainedNone(st: Progress)
    requires !st.done
    ensures Gained(st, []) == st
  {
    assert st.job.resources + [] == st.job.resources;
    assert st.seen + {} == st.seen;
  }

  lemma {:induction false} ResourcesStep(utf8: bytes -> bool, st: Progress, rs: seq<Resource>, more: bytes)
    requires forall r :: r in rs ==> Transportable(utf8, r)
    requires Printable(rs) && !st.done && st.count + |rs| <= 1000
    ensures Parse(utf8, st, PrintResources(rs) + more) == Parse(utf8, Gained(st, rs), more)
    decreases rs
  {
    hide PrintResource, Parse, Transportable;
    if rs == [] {
      assert [] + more == more;
      GainedNone(st);
    } else {
      var p := PrintResources(rs[1..]) + more;
      assert PrintResources(rs) + more == PrintResource(rs[0]) + p;
      ResourceStep(utf8, st, rs[0], p);
      ResourcesStep(utf8, Gained(st, [rs[0]]), rs[1..], more);
      GainedFirst(st, rs);
    }
  }

  /** A resource the receiver does not accept ends the parse with an error. */
  lemma ResourceRefused(utf8: bytes -> bool, r: Resource, more: bytes)
    requires ChunkLength(r) <= LIMIT && !Transportable(utf8, r)
    ensures ParseResource(utf8, Pack(|r.alias|) + (r.alias + (Pack(|r.orig|) + (r.orig + (Pack(|r.data|) + (r.data + more))))),
                          ChunkLength(r)).Bad?
  {
    hide Pack, Unpack, Take, TakeNumber, IsAlias;
    var p5 := r.data + more;
    var p4 := Pack(|r.data|) + p5;
    var p3 := r.orig + p4;
    var p2 := Pack(|r.orig|) + p3;
    var p1 := r.alias + p2;
    TakePacked(|r.alias|, p1);
    TakeFront(r.alias, p2);
    TakePacked(|r.orig|, p3);
    TakeFront(r.orig, p4);
  }

  lemma RefusedStep(utf8: bytes -> bool, st: Progress, r: Resource, more: bytes)
    requires ChunkLength(r) <= LIMIT && !st.done
    requires !Transportable(utf8, r) || st.count == 1000
    ensures Parse(utf8, st, PrintResource(r) + more).Bad?
  {
    hide Pack, ParseResource, TakeNumber, Transportable;
    var p := Pack(|r.alias|) + (r.alias + (Pack(|r.orig|) + (r.orig + (Pack(|r.data|) + (r.data + more)))));
    TakePacked(ChunkLength(r), p);
    if st.count != 1000 { ResourceRefused(utf8, r, more); }
    assert ParseField(utf8, st, RSRC, Pack(ChunkLength(r)) + p).Bad?;
    FieldRefused(utf8, st, RSRC, Pack(ChunkLength(r)) + p);
    Associate(r, more);
  }

  lemma FieldRefused(utf8: bytes -> bool, st: Progress, tag: bytes, p: bytes)
    requires |tag| == 4 && ParseField(utf8, st, tag, p).Bad?
    ensures Parse(utf8, st, tag + p).Bad?
  {
    hide ParseField;
    TakeFront(tag, p);
  }

  lemma {:induction false} ResourcesRefused(utf8: bytes -> bool, st: Progress, rs: seq<Resource>, more: bytes)
    requires Printable(rs) && !st.done && st.count <= 1000
    requires st.count + |rs| > 1000 || exists r :: r in rs && !Transportable(utf8, r)
    ensures Parse(utf8, st, PrintResources(rs) + more).Bad?
    decreases rs
  {
    hide PrintResource, Parse, Transportable;
    var p := PrintResources(rs[1..]) + more;
    assert PrintResources(rs) + more == PrintResource(rs[0]) + p;
    if !Transportable(utf8, rs[0]) || st.count == 1000 {
      RefusedStep(utf8, st, rs[0], p);
    } else {
      ResourceStep(utf8, st, rs[0], p);
      if r :| r in rs && !Transportable(utf8, r) {
        assert r in rs[1..];
      }
      ResourcesRefused(utf8, Gained(st, [rs[0]]), rs[1..], more);
    }
  }

  lemma IntStep(utf8: bytes -> bool, st: Progress, tag: bytes, v: int32, st': Progress, more: bytes)
    requires tag in {XMIN, YMIN, XMAX, YMAX, FRAM} && tag !in st.seen && !st.done
    requires st'.seen == st.seen + {tag} && st'.count == st.count && !st'.done
    requires st'.job == if tag == XMIN then st.job.(xmin := v) else if tag == YMIN then st.job.(ymin := v)
                        else if tag == XMAX then st.job.(xmax := v) else if tag == YMAX then st.job.(ymax := v)
                        else st.job.(frame := v)
    ensures Parse(utf8, st, PrintInt(tag, v) + more) == Parse(utf8, st', more)
  {
    hide Pack, PackInt, Parse, ParseInt, TakeNumber, ParseResource;
    IntField(v, more);
    FourBytes(v);
    FieldStep(utf8, st, tag, Pack(4) + (PackInt(v) + more), st', more);
    assert PrintInt(tag, v) + more == tag + (Pack(4) + (PackInt(v) + more));
  }

  lemma FourBytes(v: int32)
    ensures |PackInt(v)| == 4
  {
  }

  lemma BlendStep(utf8: bytes -> bool, st: Progress, blend: bytes)
    requires |blend| <= LIMIT && BLEN !in st.seen && !st.done
    ensures Parse(utf8, st, PrintData(BLEN, blend)) == Good(st.job.(blend := st.job.blend + [blend]))
  {
    hide Pack, TakeNumber, ParseResource;
    TakePacked(|blend|, blend);
    TakeFront(blend, []);
    assert blend + [] == blend;
    var p := Pack(|blend|) + blend;
    var st' := Progress(st.job.(blend := st.job.blend + [blend]), st.seen + {BLEN}, st.count, true);
    assert ParseField(utf8, st, BLEN, p) == Good((st', []));
    FieldStep(utf8, st, BLEN, p, st', []);
    assert PrintData(BLEN, blend) == BLEN + p;
  }

  lemma HeadStep(utf8: bytes -> bool, job: Job, more: bytes)
    ensures Parse(utf8, START, PrintHead(job) + more) ==
            Parse(utf8, Progress(Received(job.xmin, job.ymin, job.xmax, job.ymax, job.frame, [], []),
                                 {XMIN, YMIN, XMAX, YMAX, FRAM}, 0, false), more)
  {
    hide Parse, PrintInt;
    var s1 := Progress(DEFAULTS.(xmin := job.xmin), {XMIN}, 0, false);
    var s2 := Progress(s1.job.(ymin := job.ymin), {XMIN, YMIN}, 0, false);
    var s3 := Progress(s2.job.(xmax := job.xmax), {XMIN, YMIN, XMAX}, 0, false);
    var s4 := Progress(s3.job.(ymax := job.ymax), {XMIN, YMIN, XMAX, YMAX}, 0, false);
    var s5 := Progress(s4.job.(frame := job.frame), {XMIN, YMIN, XMAX, YMAX, FRAM}, 0, false);
    var p5 := PrintInt(FRAM, job.frame) + more;
    var p4 := PrintInt(YMAX, job.ymax) + p5;
    var p3 := PrintInt(XMAX, job.xmax) + p4;
    var p2 := PrintInt(YMIN, job.ymin) + p3;
    Flatten4(PrintInt(XMIN, job.xmin), PrintInt(YMIN, job.ymin), PrintInt(XMAX, job.xmax), PrintInt(YMAX, job.ymax), p5);
    assert PrintHead(job) + more == PrintInt(XMIN, job.xmin) + PrintInt(YMIN, job.ymin) + PrintInt(XMAX, job.xmax) +
                                    PrintInt(YMAX, job.ymax) + p5;
    IntStep(utf8, START, XMIN, job.xmin, s1, p2);
    IntStep(utf8, s1, YMIN, job.ymin, s2, p3);
    IntStep(utf8, s2, XMAX, job.xmax, s3, p4);
    IntStep(utf8, s3, YMAX, job.ymax, s4, p5);
    IntStep(utf8, s4, FRAM, job.frame, s5, more);
  }

  /** Parsing what was printed gives back every field and every byte. */
  lemma RoundTrip(utf8: bytes -> bool, job: Job)
    requires (forall r :: r in job.resources ==> Transportable(utf8, r)) && |job.resources| <= 1000
    requires Printable(job.resources) && |job.blend| <= LIMIT
    ensures Parse(utf8, START, Print(job)) ==
            Good(Received(job.xmin, job.ymin, job.xmax, job.ymax, job.frame, job.resources, [job.blend]))
  {
    hide Parse, PrintHead, PrintResource, PrintData, Transportable;
    var blend := PrintData(BLEN, job.blend);
    var rest := PrintResources(job.resources) + blend;
    assert Print(job) == PrintHead(job) + rest;
    HeadStep(utf8, job, rest);
    var st := Progress(Received(job.xmin, job.ymin, job.xmax, job.ymax, job.frame, [], []),
                       {XMIN, YMIN, XMAX, YMAX, FRAM}, 0, false);
    ResourcesStep(utf8, st, job.resources, blend);
    assert [] + job.resources == job.resources;
    assert [] + [job.blend] == [job.blend];
    DistinctTags();
    BlendStep(utf8, Gained(st, job.resources), job.blend);
  }

  /** A job is refused as soon as one of its resources is, or if there are too many. */
  lemma RoundTripRefused(utf8: bytes -> bool, job: Job)
    requires Printable(job.resources) && |job.blend| <= LIMIT
    requires |job.resources| > 1000 || exists r :: r in job.resources && !Transportable(utf8, r)
    ensures Parse(utf8, START, Print(job)).Bad?
  {
    hide Parse, PrintHead, PrintResource, PrintData, Transportable;
    var blend := PrintData(BLEN, job.blend);
    var rest := PrintResources(job.resources) + blend;
    assert Print(job) == PrintHead(job) + rest;
    HeadStep(utf8, job, rest);
    var st := Progress(Received(job.xmin, job.ymin, job.xmax, job.ymax, job.frame, [], []),
                       {XMIN, YMIN, XMAX, YMAX, FRAM}, 0, false);
    ResourcesRefused(utf8, st, job.resources, blend);
  }

  lemma DistinctTags()
    ensures BLEN !in {XMIN, YMIN, XMAX, YMAX, FRAM} + {RSRC} && BLEN !in {XMIN, YMIN, XMAX, YMAX, FRAM} + {}
  {
    assert BLEN[0] == 98;
  }
}
