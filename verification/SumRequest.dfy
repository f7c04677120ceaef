/** The batched read-write request: the driver fills one buffer from both ends
    of a header region and a name region, and the server takes it apart. */
module SumRequest {
  import opened Bytes

  const HEADER_SIZE: nat := 16
  const CHUNK_SIZE: nat := 500
  const TWO32: nat := 0x1_0000_0000

  /** A name short enough for its length to fit the header word. */
  type Name = n: seq<byte> | |n| < TWO32 witness []

  datatype SubRequest = SubRequest(group: u32, offset: u32, readLen: u32, name: Name)

  function EncodeHeader(r: SubRequest): (bs: seq<byte>)
    ensures |bs| == HEADER_SIZE
  {
    EncodeU32(r.group) + EncodeU32(r.offset) + EncodeU32(r.readLen) + EncodeU32(|r.name|)
  }

  function Headers(reqs: seq<SubRequest>): (r: seq<seq<byte>>)
    ensures |r| == |reqs| && forall i :: 0 <= i < |r| ==> |r[i]| == HEADER_SIZE
  {
    seq(|reqs|, i requires 0 <= i < |reqs| => EncodeHeader(reqs[i]))
  }

  function Names(reqs: seq<SubRequest>): (r: seq<seq<byte>>)
    ensures |r| == |reqs|
  {
    seq(|reqs|, i requires 0 <= i < |reqs| => reqs[i].name)
  }

  /** All headers, then all names. */
  function EncodeSum(reqs: seq<SubRequest>): seq<byte> {
    Concat(Headers(reqs)) + Concat(Names(reqs))
  }

  // ----- the driver's side -----

  /** memcpy into a buffer. */
  method CopyInto(buf: array<byte>, at: nat, bytes: seq<byte>)
    requires at + |bytes| <= buf.Length
    modifies buf
    ensures forall k :: 0 <= k < buf.Length ==>
              buf[k] == if at <= k < at + |bytes| then bytes[k - at] else old(buf[k])
  {
    forall k | 0 <= k < |bytes| {
      buf[at + k] := bytes[k];
    }
  }

  lemma HeadersLength(reqs: seq<SubRequest>, i: nat)
    requires i <= |reqs|
    ensures Offset(Headers(reqs), i) == HEADER_SIZE * i
  {
    UniformOffset(Headers(reqs), HEADER_SIZE, i);
  }

  /** The name region's size, as the driver adds it up. */
  method TotalNameBytes(reqs: seq<SubRequest>) returns (namesTotal: nat)
    ensures namesTotal == |Concat(Names(reqs))|
  {
    namesTotal := 0;
    for i := 0 to |reqs|
      invariant namesTotal == Offset(Names(reqs), i)
    {
      OffsetStep(Names(reqs), i);
      namesTotal := namesTotal + |reqs[i].name|;
    }
    assert Names(reqs)[..|reqs|] == Names(reqs);
  }

  /** The first `i` headers and the first `i` names are in place. */
  ghost predicate Written(data: seq<byte>, reqs: seq<SubRequest>, i: nat) {
    && i <= |reqs| && |data| == HEADER_SIZE * |reqs| + |Concat(Names(reqs))|
    && HEADER_SIZE * |reqs| + Offset(Names(reqs), i) <= |data|
    && data[..HEADER_SIZE * i] == Concat(Headers(reqs)[..i])
    && data[HEADER_SIZE * |reqs|..HEADER_SIZE * |reqs| + Offset(Names(reqs), i)] == Concat(Names(reqs)[..i])
  }

  /** Both write positions advance together, one sub-request at a time. */
  method FillWriteBuf(reqs: seq<SubRequest>, buf: array<byte>)
    requires buf.Length == HEADER_SIZE * |reqs| + |Concat(Names(reqs))|
    modifies buf
    ensures buf[..] == EncodeSum(reqs)
  {
    var hdr, name := 0, HEADER_SIZE * |reqs|;
    var i := 0;
    while i < |reqs|
      invariant 0 <= i <= |reqs| && hdr == HEADER_SIZE * i
      invariant name == HEADER_SIZE * |reqs| + Offset(Names(reqs), i)
      invariant Written(buf[..], reqs, i)
    {
      OffsetStep(Names(reqs), i);
      PutOne(reqs, i, buf, hdr, name);
      hdr := hdr + HEADER_SIZE;
      name := name + |reqs[i].name|;
      i := i + 1;
    }
    WrittenAll(buf[..], reqs);
  }

  lemma WrittenAll(data: seq<byte>, reqs: seq<SubRequest>)
    requires Written(data, reqs, |reqs|)
    ensures data == EncodeSum(reqs)
  {
    assert Headers(reqs)[..|reqs|] == Headers(reqs) && Names(reqs)[..|reqs|] == Names(reqs);
    var n := HEADER_SIZE * |reqs|;
    assert data == data[..n] + data[n..];
  }

  /** One more block behind the ones that are in place. */
  lemma OneMore(data: seq<byte>, blocks: seq<seq<byte>>, i: nat, base: nat, at: nat)
    requires i < |blocks| && at == base + Offset(blocks, i) && at + |blocks[i]| <= |data|
    requires data[base..at] == Concat(blocks[..i]) && data[at..at + |blocks[i]|] == blocks[i]
    ensures base + Offset(blocks, i + 1) == at + |blocks[i]|
    ensures data[base..base + Offset(blocks, i + 1)] == Concat(blocks[..i + 1])
  {
    OffsetStep(blocks, i);
    var to := at + |blocks[i]|;
    assert base + Offset(blocks, i + 1) == to;
    JoinSlices(data, base, at, to);
  }

  /** `after` is `before` with a header copied to `hdr` and a name to `name`. */
  ghost predicate BothCopied(before: seq<byte>, after: seq<byte>, hdr: nat, header: seq<byte>, name: nat, text: seq<byte>)
    requires hdr + |header| <= name && name + |text| <= |before| == |after|
  {
    && (forall k :: 0 <= k < |header| ==> after[hdr + k] == header[k])
    && (forall k :: 0 <= k < |text| ==> after[name + k] == text[k])
    && (forall k :: 0 <= k < hdr || hdr + |header| <= k < name ==> after[k] == before[k])
  }

  /** Both blocks are in the buffer after the second copy. */
  lemma BothPut(before: seq<byte>, after: seq<byte>, reqs: seq<SubRequest>, i: nat, hdr: nat, name: nat)
    requires i < |reqs| && Written(before, reqs, i) && |after| == |before|
    requires hdr == HEADER_SIZE * i && name == HEADER_SIZE * |reqs| + Offset(Names(reqs), i)
    requires name + |reqs[i].name| <= |after|
    requires BothCopied(before, after, hdr, EncodeHeader(reqs[i]), name, reqs[i].name)
    ensures Written(after, reqs, i + 1)
  {
    HeadersLength(reqs, i);
    HeadersLength(reqs, i + 1);
    SliceIs(after, hdr, EncodeHeader(reqs[i]));
    SliceIs(after, name, reqs[i].name);
    SliceSame(after, before, 0, hdr);
    SliceSame(after, before, HEADER_SIZE * |reqs|, name);
    OneMore(after, Headers(reqs), i, 0, hdr);
    OneMore(after, Names(reqs), i, HEADER_SIZE * |reqs|, name);
  }

  method PutOne(reqs: seq<SubRequest>, i: nat, buf: array<byte>, hdr: nat, name: nat)
    requires i < |reqs| && Written(buf[..], reqs, i)
    requires hdr == HEADER_SIZE * i && name == HEADER_SIZE * |reqs| + Offset(Names(reqs), i)
    modifies buf
    ensures Written(buf[..], reqs, i + 1)
  {
    NameFits(reqs, i);
    CopyBoth(buf, hdr, EncodeHeader(reqs[i]), name, reqs[i].name);
    BothPut(old(buf[..]), buf[..], reqs, i, hdr, name);
  }

  method CopyBoth(buf: array<byte>, hdr: nat, header: seq<byte>, name: nat, text: seq<byte>)
    requires hdr + |header| <= name && name + |text| <= buf.Length
    modifies buf
    ensures BothCopied(old(buf[..]), buf[..], hdr, header, name, text)
  {
    CopyInto(buf, hdr, header);
    CopyInto(buf, name, text);
  }

  lemma NameFits(reqs: seq<SubRequest>, i: nat)
    requires i < |reqs|
    ensures Offset(Names(reqs), i) + |reqs[i].name| <= |Concat(Names(reqs))|
  {
    ConcatSlice(Names(reqs), i);
  }

  /** One chunk's request, built in a buffer of exactly the size the two regions need. */
  method BuildWriteBuf(reqs: seq<SubRequest>) returns (buf: array<byte>)
    ensures fresh(buf) && buf[..] == EncodeSum(reqs)
    ensures buf.Length == HEADER_SIZE * |reqs| + |Concat(Names(reqs))|
  {
    var namesTotal := TotalNameBytes(reqs);
    buf := new byte[HEADER_SIZE * |reqs| + namesTotal](i => 0);
    FillWriteBuf(reqs, buf);
  }

  // ----- the server's side -----

  function LengthAt(data: seq<byte>, i: nat): u32 {
    WordAt(data, HEADER_SIZE * i + 12)
  }

  /** Where the server looks for name `i`. */
  function NameStart(n: nat, data: seq<byte>, i: nat): nat {
    if i == 0 then HEADER_SIZE * n else NameStart(n, data, i - 1) + LengthAt(data, i - 1)
  }

  /** A Python slice: positions past the end are the end. */
  function Clip(data: seq<byte>, from: nat, to: nat): seq<byte>
    requires from <= to
  {
    var hi := if to <= |data| then to else |data|;
    var lo := if from <= hi then from else hi;
    data[lo..hi]
  }

  function ParsedAt(n: nat, data: seq<byte>, i: nat): SubRequest {
    var at := HEADER_SIZE * i;
    var start := NameStart(n, data, i);
    SubRequest(WordAt(data, at), WordAt(data, at + 4), WordAt(data, at + 8),
               Clip(data, start, start + LengthAt(data, i)))
  }

  function ParseSum(n: nat, data: seq<byte>): (r: seq<SubRequest>)
    ensures |r| == n
  {
    seq(n, i requires 0 <= i < n => ParsedAt(n, data, i))
  }

  type HeaderWords = (u32, u32, u32, u32)

  function HeaderWordsAt(data: seq<byte>, i: nat): HeaderWords {
    (WordAt(data, HEADER_SIZE * i), WordAt(data, HEADER_SIZE * i + 4), WordAt(data, HEADER_SIZE * i + 8),
     LengthAt(data, i))
  }

  method WalkHeaders(n: nat, writeData: seq<byte>) returns (rqList: seq<HeaderWords>)
    requires HEADER_SIZE * n <= |writeData|
    ensures |rqList| == n && forall j :: 0 <= j < n ==> rqList[j] == HeaderWordsAt(writeData, j)
  {
    rqList := [];
    for i := 0 to n
      invariant |rqList| == i && forall j :: 0 <= j < i ==> rqList[j] == HeaderWordsAt(writeData, j)
    {
      var off := i * 16;
      var ig := WordAt(writeData, off);
      var io := WordAt(writeData, off + 4);
      var rl := WordAt(writeData, off + 8);
      var wl := WordAt(writeData, off + 12);
      rqList := rqList + [(ig, io, rl, wl)];
    }
  }

  /** The header walk, then the name slices. */
  method ParseSumRequest(n: nat, writeData: seq<byte>) returns (reqs: seq<SubRequest>)
    requires HEADER_SIZE * n <= |writeData|
    ensures reqs == ParseSum(n, writeData)
  {
    var rqList := WalkHeaders(n, writeData);
    var writeOffset: nat := 0;
    reqs := [];
    for i := 0 to n
      invariant writeOffset + HEADER_SIZE * n == NameStart(n, writeData, i)
      invariant |reqs| == i && forall j :: 0 <= j < i ==> reqs[j] == ParsedAt(n, writeData, j)
    {
      assert rqList[i] == HeaderWordsAt(writeData, i);
      var r := SliceName(n, writeData, i, rqList[i], writeOffset);
      reqs := reqs + [r];
      writeOffset := writeOffset + rqList[i].3;
    }
  }

  method SliceName(n: nat, writeData: seq<byte>, ghost i: nat, words: HeaderWords, writeOffset: nat)
    returns (r: SubRequest)
    requires HEADER_SIZE * n <= |writeData| && words == HeaderWordsAt(writeData, i)
    requires writeOffset + HEADER_SIZE * n == NameStart(n, writeData, i)
    ensures r == ParsedAt(n, writeData, i)
  {
    var writePayload := writeData[HEADER_SIZE * n..];
    ClipOfRest(writeData, HEADER_SIZE * n, writeOffset, writeOffset + words.3);
    r := SubRequest(words.0, words.1, words.2, Clip(writePayload, writeOffset, writeOffset + words.3));
  }

  lemma ClipOfRest(data: seq<byte>, from: nat, lo: nat, hi: nat)
    requires from <= |data| && lo <= hi
    ensures Clip(data[from..], lo, hi) == Clip(data, from + lo, from + hi)
  {
  }

  lemma HeaderFound(data: seq<byte>, at: nat, r: SubRequest)
    requires at + HEADER_SIZE <= |data| && data[at..at + HEADER_SIZE] == EncodeHeader(r)
    ensures WordAt(data, at) == r.group && WordAt(data, at + 4) == r.offset
    ensures WordAt(data, at + 8) == r.readLen && WordAt(data, at + 12) == |r.name|
  {
    var h := EncodeHeader(r);
    assert h[0..4] == EncodeU32(r.group) && h[4..8] == EncodeU32(r.offset);
    assert h[8..12] == EncodeU32(r.readLen) && h[12..16] == EncodeU32(|r.name|);
    WordInBlock(data, at, h, 0, r.group);
    WordInBlock(data, at, h, 4, r.offset);
    WordInBlock(data, at, h, 8, r.readLen);
    WordInBlock(data, at, h, 12, |r.name|);
  }

  /** Group, offset, size of the answer and length of the name lie in this order
      in the sixteen bytes of each header. */
  lemma HeaderAt(reqs: seq<SubRequest>, i: nat)
    requires i < |reqs|
    ensures var data := EncodeSum(reqs);
            && WordAt(data, 16 * i) == reqs[i].group
            && WordAt(data, 16 * i + 4) == reqs[i].offset
            && WordAt(data, 16 * i + 8) == reqs[i].readLen
            && WordAt(data, 16 * i + 12) == |reqs[i].name|
  {
    var headers := Headers(reqs);
    HeadersLength(reqs, i);
    ConcatSlice(headers, i);
    var at := HEADER_SIZE * i;
    assert EncodeSum(reqs)[at..at + HEADER_SIZE] == Concat(headers)[at..at + HEADER_SIZE];
    HeaderFound(EncodeSum(reqs), at, reqs[i]);
  }

  lemma {:induction false} NameStartsAt(reqs: seq<SubRequest>, i: nat)
    requires i <= |reqs|
    ensures NameStart(|reqs|, EncodeSum(reqs), i) == HEADER_SIZE * |reqs| + Offset(Names(reqs), i)
  {
    if i > 0 {
      NameStartsAt(reqs, i - 1);
      HeaderAt(reqs, i - 1);
      OffsetStep(Names(reqs), i - 1);
    }
  }

  lemma NameFound(reqs: seq<SubRequest>, i: nat)
    requires i < |reqs|
    ensures ParsedAt(|reqs|, EncodeSum(reqs), i).name == reqs[i].name
  {
    var data := EncodeSum(reqs);
    var headers, names := Concat(Headers(reqs)), Concat(Names(reqs));
    HeadersLength(reqs, |reqs|);
    assert Headers(reqs)[..|reqs|] == Headers(reqs);
    HeaderAt(reqs, i);
    NameStartsAt(reqs, i);
    ConcatSlice(Names(reqs), i);
    var at := Offset(Names(reqs), i);
    assert data[|headers| + at..|headers| + at + |reqs[i].name|] == names[at..at + |reqs[i].name|];
  }

  /** The server recovers exactly the list the driver encoded, in order. */
  lemma ParseInvertsEncode(reqs: seq<SubRequest>)
    ensures ParseSum(|reqs|, EncodeSum(reqs)) == reqs
    ensures |EncodeSum(reqs)| == HEADER_SIZE * |reqs| + |Concat(Names(reqs))|
  {
    forall i | 0 <= i < |reqs| ensures ParsedAt(|reqs|, EncodeSum(reqs), i) == reqs[i] {
      HeaderAt(reqs, i);
      NameFound(reqs, i);
    }
    HeadersLength(reqs, |reqs|);
    assert Headers(reqs)[..|reqs|] == Headers(reqs);
  }

  // ----- chunks -----

  function ChunkCount(n: nat): nat {
    (n + CHUNK_SIZE - 1) / CHUNK_SIZE
  }

  /** Where chunk `k` of a list of `n` starts; the end of the list for the chunk after the last. */
  function ChunkStart(n: nat, k: nat): (r: nat)
    ensures r <= n && r <= CHUNK_SIZE * k
  {
    if CHUNK_SIZE * k <= n then CHUNK_SIZE * k else n
  }

  function ChunkOf<T>(xs: seq<T>, k: nat): (r: seq<T>)
    requires k < ChunkCount(|xs|)
    ensures 1 <= |r| <= CHUNK_SIZE
    ensures |r| == ChunkStart(|xs|, k + 1) - ChunkStart(|xs|, k)
  {
    xs[CHUNK_SIZE * k..ChunkStart(|xs|, k + 1)]
  }

  function Chunks<T>(xs: seq<T>): (r: seq<seq<T>>)
    ensures |r| == ChunkCount(|xs|)
  {
    seq(ChunkCount(|xs|), chunk requires 0 <= chunk < ChunkCount(|xs|) => ChunkOf(xs, chunk))
  }

  /** The first `k` chunks are a prefix of the list. */
  lemma {:induction false} ChunksPrefix<T>(xs: seq<T>, k: nat)
    requires k <= ChunkCount(|xs|)
    ensures Concat(Chunks(xs)[..k]) == xs[..ChunkStart(|xs|, k)]
  {
    if k > 0 {
      ChunksPrefix(xs, k - 1);
      OffsetStep(Chunks(xs), k - 1);
      assert Chunks(xs)[k - 1] == ChunkOf(xs, k - 1);
    }
  }

  /** Cutting into chunks loses nothing: they concatenate to the list, the last
      is not empty and every other holds 500. */
  lemma ChunksConcatenate<T>(xs: seq<T>)
    ensures Concat(Chunks(xs)) == xs
    ensures forall k :: 0 <= k < |Chunks(xs)| ==>
              if k < |Chunks(xs)| - 1 then |Chunks(xs)[k]| == 500 else 1 <= |Chunks(xs)[k]| <= 500
  {
    ChunksPrefix(xs, ChunkCount(|xs|));
    assert Chunks(xs)[..ChunkCount(|xs|)] == Chunks(xs);
  }
}
