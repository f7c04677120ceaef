/** The sum read: the server that answers it, the reply's layout, and the
    theorem that decoding one reply is as good as one read per parameter. */
module SumRead {
  import opened Bytes
  import opened BulkModel
  import opened BulkInvariants
  import opened BulkProofs
  import BulkTheorems
  import opened BulkAccounts

  const NOT_FOUND: u32 := 0x710
  const REQUEST_SIZE: nat := 12

  /** The variables one AMS port serves, by handle and by absolute address. */
  datatype Server = Server(byHandle: map<u32, seq<byte>>, byIndex: map<(u32, u32), seq<byte>>)

  datatype SlotAnswer = SlotAnswer(status: u32, data: seq<byte>)

  predicate Knows(srv: Server, r: Request) {
    if r.group == SYM_VALBYHND then r.offset in srv.byHandle else (r.group, r.offset) in srv.byIndex
  }

  function ValueOf(srv: Server, r: Request): seq<byte>
    requires Knows(srv, r)
  {
    if r.group == SYM_VALBYHND then srv.byHandle[r.offset] else srv.byIndex[(r.group, r.offset)]
  }

  /** One read: the value cut or zero-filled to the size asked for, or an error with zeros. */
  function ReadOne(srv: Server, r: Request): (a: SlotAnswer)
    ensures |a.data| == r.size
    ensures a.status == 0 <==> Knows(srv, r)
  {
    if !Knows(srv, r) then SlotAnswer(NOT_FOUND, Zeros(r.size))
    else
      var v := ValueOf(srv, r);
      SlotAnswer(0, if r.size <= |v| then v[..r.size] else v + Zeros(r.size - |v|))
  }

  /** Byte by byte: the server's value as far as it goes, and zeros behind it. */
  lemma ReadOneMeans(srv: Server, r: Request, k: nat)
    requires k < r.size
    ensures ReadOne(srv, r).data[k]
            == if r.group == 0xF005 then
                 if r.offset in srv.byHandle && k < |srv.byHandle[r.offset]| then srv.byHandle[r.offset][k] else 0
               else if (r.group, r.offset) in srv.byIndex && k < |srv.byIndex[(r.group, r.offset)]|
               then srv.byIndex[(r.group, r.offset)][k] else 0
  {
  }

  function Statuses(srv: Server, reqs: seq<Request>): (r: seq<seq<byte>>)
    ensures |r| == |reqs| && forall i :: 0 <= i < |r| ==> |r[i]| == 4
  {
    seq(|reqs|, i requires 0 <= i < |reqs| => EncodeU32(ReadOne(srv, reqs[i]).status))
  }

  function Blocks(srv: Server, reqs: seq<Request>): (r: seq<seq<byte>>)
    ensures |r| == |reqs| && forall i :: 0 <= i < |r| ==> |r[i]| == reqs[i].size
  {
    seq(|reqs|, i requires 0 <= i < |reqs| => ReadOne(srv, reqs[i]).data)
  }

  /** All status words, then all data blocks. */
  function SumReply(srv: Server, reqs: seq<Request>): seq<byte> {
    Concat(Statuses(srv, reqs)) + Concat(Blocks(srv, reqs))
  }

  // ----- the request on the wire -----

  function EncodeRequest(r: Request): (bs: seq<byte>)
    ensures |bs| == REQUEST_SIZE
  {
    EncodeU32(r.group) + EncodeU32(r.offset) + EncodeU32(r.size)
  }

  function EncodeRequests(reqs: seq<Request>): seq<byte> {
    Concat(seq(|reqs|, i requires 0 <= i < |reqs| => EncodeRequest(reqs[i])))
  }

  function RequestAt(data: seq<byte>, i: nat): Request {
    var at := REQUEST_SIZE * i;
    Request(WordAt(data, at), WordAt(data, at + 4), WordAt(data, at + 8))
  }

  function RequestsIn(n: nat, data: seq<byte>): (r: seq<Request>)
    ensures |r| == n
  {
    seq(n, i requires 0 <= i < n => RequestAt(data, i))
  }

  lemma RequestFound(data: seq<byte>, i: nat, r: Request)
    requires REQUEST_SIZE * i + REQUEST_SIZE <= |data|
    requires data[REQUEST_SIZE * i..REQUEST_SIZE * i + REQUEST_SIZE] == EncodeRequest(r)
    ensures RequestAt(data, i) == r
  {
    var at := REQUEST_SIZE * i;
    PartFound(data, at, EncodeRequest(r), 0, 4);
    PartFound(data, at, EncodeRequest(r), 4, 8);
    PartFound(data, at, EncodeRequest(r), 8, 12);
    WordFound(data, at, r.group);
    WordFound(data, at + 4, r.offset);
    WordFound(data, at + 8, r.size);
  }

  lemma RequestsRoundTrip(reqs: seq<Request>)
    ensures RequestsIn(|reqs|, EncodeRequests(reqs)) == reqs
  {
    var parts := seq(|reqs|, i requires 0 <= i < |reqs| => EncodeRequest(reqs[i]));
    forall i | 0 <= i < |reqs| ensures RequestAt(Concat(parts), i) == reqs[i] {
      ConcatSlice(parts, i);
      UniformOffset(parts, REQUEST_SIZE, i);
      RequestFound(Concat(parts), i, reqs[i]);
    }
  }

  /** Group, offset and size of each request lie in this order in its twelve bytes. */
  lemma RequestWords(reqs: seq<Request>, i: nat)
    requires i < |reqs|
    ensures var data := EncodeRequests(reqs);
            && WordAt(data, 12 * i) == reqs[i].group
            && WordAt(data, 12 * i + 4) == reqs[i].offset
            && WordAt(data, 12 * i + 8) == reqs[i].size
  {
    RequestsRoundTrip(reqs);
    assert RequestsIn(|reqs|, EncodeRequests(reqs))[i] == RequestAt(EncodeRequests(reqs), i);
  }

  /** The server's loop over the sub-requests of a sum read. */
  method HandleSumupRead(srv: Server, n: nat, writeData: seq<byte>) returns (reply: seq<byte>)
    requires REQUEST_SIZE * n <= |writeData|
    requires |SumReply(srv, RequestsIn(n, writeData))| < 0x1_0000_0000
    ensures reply == EncodeU32(0) + EncodeU32(|SumReply(srv, RequestsIn(n, writeData))|)
                     + SumReply(srv, RequestsIn(n, writeData))
  {
    ghost var reqs := RequestsIn(n, writeData);
    var statusBlock: seq<byte> := [];
    var dataBlock: seq<byte> := [];
    for i := 0 to n
      invariant statusBlock == Concat(Statuses(srv, reqs)[..i])
      invariant dataBlock == Concat(Blocks(srv, reqs)[..i])
    {
      var r := RequestAt(writeData, i);
      assert reqs[i] == r;
      assert Statuses(srv, reqs)[i] == EncodeU32(ReadOne(srv, r).status);
      assert Blocks(srv, reqs)[i] == ReadOne(srv, r).data;
      OffsetStep(Statuses(srv, reqs), i);
      OffsetStep(Blocks(srv, reqs), i);
      if Knows(srv, r) {
        var v := ValueOf(srv, r);
        var val := if r.size <= |v| then v[..r.size] else v;
        if |val| < r.size {
          val := val + Zeros(r.size - |val|);
        }
        statusBlock := statusBlock + EncodeU32(0);
        dataBlock := dataBlock + val;
      } else {
        statusBlock := statusBlock + EncodeU32(NOT_FOUND);
        dataBlock := dataBlock + Zeros(r.size);
      }
    }
    assert Statuses(srv, reqs)[..n] == Statuses(srv, reqs) && Blocks(srv, reqs)[..n] == Blocks(srv, reqs);
    var readData := statusBlock + dataBlock;
    reply := EncodeU32(0) + EncodeU32(|readData|) + readData;
  }

  // ----- reading the reply back -----

  function Lengths(blocks: seq<seq<byte>>): (r: seq<int>)
    ensures |r| == |blocks|
  {
    seq(|blocks|, i requires 0 <= i < |blocks| => |blocks[i]|)
  }

  lemma {:induction false} OffsetIsTotal(blocks: seq<seq<byte>>, i: nat)
    requires i <= |blocks|
    ensures Offset(blocks, i) == Total(Lengths(blocks)[..i])
  {
    if i > 0 {
      OffsetIsTotal(blocks, i - 1);
      OffsetStep(blocks, i - 1);
      assert Lengths(blocks)[..i][..i - 1] == Lengths(blocks)[..i - 1];
    }
  }

  lemma StatusesLength(srv: Server, reqs: seq<Request>)
    ensures |Concat(Statuses(srv, reqs))| == 4 * |reqs|
  {
    UniformOffset(Statuses(srv, reqs), 4, |reqs|);
    assert Statuses(srv, reqs)[..|reqs|] == Statuses(srv, reqs);
  }

  /** Data that begins with a sum reply holds each status word at its place. */
  lemma StatusAt(srv: Server, reqs: seq<Request>, data: seq<byte>, j: nat)
    requires j < |reqs| && SumReply(srv, reqs) <= data
    ensures WordAt(data, 4 * j) == ReadOne(srv, reqs[j]).status
  {
    StatusInReply(srv, reqs, j);
    PartFound(data, 0, SumReply(srv, reqs), 4 * j, 4 * j + 4);
    WordFound(data, 4 * j, ReadOne(srv, reqs[j]).status);
  }

  lemma StatusInReply(srv: Server, reqs: seq<Request>, j: nat)
    requires j < |reqs|
    ensures 4 * j + 4 <= |SumReply(srv, reqs)|
    ensures SumReply(srv, reqs)[4 * j..4 * j + 4] == EncodeU32(ReadOne(srv, reqs[j]).status)
  {
    var statuses := Statuses(srv, reqs);
    UniformOffset(statuses, 4, j);
    ConcatSlice(statuses, j);
    assert SumReply(srv, reqs)[4 * j..4 * j + 4] == Concat(statuses)[4 * j..4 * j + 4];
  }

  /** Data that begins with a sum reply holds each data block at its place. */
  lemma BlockAt(srv: Server, reqs: seq<Request>, data: seq<byte>, j: nat)
    requires j < |reqs| && SumReply(srv, reqs) <= data
    ensures SliceAt(data, 4 * |reqs| + Offset(Blocks(srv, reqs), j), reqs[j].size) == ReadOne(srv, reqs[j]).data
  {
    var blocks := Blocks(srv, reqs);
    var words := Concat(Statuses(srv, reqs));
    StatusesLength(srv, reqs);
    ConcatSlice(blocks, j);
    var at := Offset(blocks, j);
    PartFound(data, 0, words + Concat(blocks), |words| + at, |words| + at + reqs[j].size);
    assert (words + Concat(blocks))[|words| + at..|words| + at + reqs[j].size]
        == Concat(blocks)[at..at + reqs[j].size];
  }

  lemma ReplyLength(srv: Server, c: Chunk)
    requires ChunkShape(c)
    ensures |SumReply(srv, c.sum[..c.cnt])| == Total(ReplyBytes(c))
  {
    var reqs := c.sum[..c.cnt];
    var blocks := Blocks(srv, reqs);
    StatusesLength(srv, reqs);
    assert blocks[..|reqs|] == blocks;
    OffsetIsTotal(blocks, |reqs|);
    assert Lengths(blocks)[..|reqs|] == Lengths(blocks);
    TotalShift(Lengths(blocks), STATUS_SIZE);
    assert ReplyBytes(c) == seq(|blocks|, k requires 0 <= k < |blocks| => Lengths(blocks)[k] + STATUS_SIZE);
  }

  lemma {:induction false} TotalShift(xs: seq<int>, d: int)
    ensures Total(seq(|xs|, k requires 0 <= k < |xs| => xs[k] + d)) == Total(xs) + d * |xs|
  {
    if xs != [] {
      var n := |xs| - 1;
      TotalShift(xs[..n], d);
      assert seq(|xs|, k requires 0 <= k < |xs| => xs[k] + d)[..n] == seq(n, k requires 0 <= k < n => xs[..n][k] + d);
    }
  }

  // ----- the decoder -----

  /** Every slot names a registered parameter, and no two slots the same one. */
  ghost predicate Directory(count: nat, c: Chunk)
    requires ChunkShape(c)
  {
    && (forall j :: RESERVED <= j < c.cnt ==> 1 <= c.paramID[j] < count)
    && (forall j, m :: RESERVED <= j < m < c.cnt ==> c.paramID[j] != c.paramID[m])
  }

  /** What the decoder advances by at each slot: the registered size of the
      time slots, and the parameter's own idea of its size after that. */
  function Strides(params: seq<Param>, c: Chunk): (r: seq<int>)
    requires ChunkShape(c) && forall j :: RESERVED <= j < c.cnt ==> 0 <= c.paramID[j] < |params|
    ensures |r| == c.cnt && forall j :: 0 <= j < |r| ==> r[j] >= 0
  {
    seq(c.cnt, j requires 0 <= j < c.cnt => if j < RESERVED then c.sum[j].size else params[c.paramID[j]].plcSize)
  }

  lemma {:induction false} TotalNonNegative(xs: seq<int>)
    requires forall k :: 0 <= k < |xs| ==> xs[k] >= 0
    ensures Total(xs) >= 0
  {
    if xs != [] {
      TotalNonNegative(xs[..|xs| - 1]);
    }
  }

  function CursorAt(strides: seq<int>, j: nat): nat
    requires j <= |strides| && forall k :: 0 <= k < |strides| ==> strides[k] >= 0
  {
    TotalNonNegative(strides[..j]);
    4 * |strides| + Total(strides[..j])
  }

  /** No slot from `j` on names `k`. */
  predicate Unnamed(ids: seq<int>, j: nat, k: int) {
    forall m :: j <= m < |ids| ==> ids[m] != k
  }

  /** From slot `j` on, each named parameter received its own status and the
      bytes at its cursor, and no other parameter was touched. */
  ghost predicate Dealt(params: seq<Param>, r: seq<Param>, ids: seq<int>, j: nat, cursors: seq<nat>, data: seq<byte>)
    requires j <= |cursors| == |ids| && forall m :: j <= m < |ids| ==> 0 <= ids[m] < |params|
  {
    && |r| == |params|
    && (forall m :: j <= m < |ids| ==>
          var p := params[ids[m]];
          r[ids[m]] == p.(refreshNeeded := p.refreshNeeded || WordAt(data, 4 * m) != 0,
                          value := SliceAt(data, cursors[m], p.plcSize)))
    && (forall k :: 0 <= k < |params| && Unnamed(ids, j, k) ==> r[k] == params[k])
  }

  /** The slots name registered parameters, each once, and the cursors advance by their sizes. */
  ghost predicate Readable(params: seq<Param>, count: nat, ids: seq<int>, j: nat, cursors: seq<nat>) {
    && count <= |params| && j <= |ids| == |cursors|
    && (forall m :: j <= m < |ids| ==> 0 <= ids[m] < count)
    && (forall m, n :: j <= m < n < |ids| ==> ids[m] != ids[n])
    && (forall m, n :: j <= m < n < |ids| && n == m + 1 ==> cursors[n] == cursors[m] + params[ids[m]].plcSize)
  }

  /** Handing out slot `j` first and the rest afterwards hands out everything from `j` on. */
  lemma DealtExtends(params: seq<Param>, r: seq<Param>, count: nat, ids: seq<int>, j: nat, cursors: seq<nat>,
                     data: seq<byte>)
    requires j < |ids| && Readable(params, count, ids, j, cursors)
    requires Dealt(Share(params, ids[j], 4 * j, cursors[j], data), r, ids, j + 1, cursors, data)
    ensures Dealt(params, r, ids, j, cursors, data)
  {
    assert Unnamed(ids, j + 1, ids[j]);
    assert forall k :: Unnamed(ids, j, k) ==> Unnamed(ids, j + 1, k) && k != ids[j];
  }

  lemma GivenStaysReadable(params: seq<Param>, count: nat, ids: seq<int>, j: nat, cursors: seq<nat>, data: seq<byte>)
    requires j < |ids| && Readable(params, count, ids, j, cursors)
    ensures Readable(Share(params, ids[j], 4 * j, cursors[j], data), count, ids, j + 1, cursors)
  {
  }

  lemma {:induction false} DealDelivers(params: seq<Param>, count: nat, ids: seq<int>, j: nat, cursors: seq<nat>,
                                        data: seq<byte>)
    requires j < |ids| && Readable(params, count, ids, j, cursors)
    ensures Dealt(params, Deal(params, count, ids, j, 4 * j, cursors[j], data), ids, j, cursors, data)
    decreases |ids| - j
  {
    var next := Share(params, ids[j], 4 * j, cursors[j], data);
    var r := Deal(next, count, ids, j + 1, 4 * (j + 1), cursors[j] + params[ids[j]].plcSize, data);
    if j + 1 < |ids| {
      GivenStaysReadable(params, count, ids, j, cursors, data);
      DealDelivers(next, count, ids, j + 1, cursors, data);
    }
    DealtExtends(params, r, count, ids, j, cursors, data);
  }

  /** Where the decoder reads each slot: behind the status words, one stride after another. */
  function Cursors(params: seq<Param>, c: Chunk): (r: seq<nat>)
    requires ChunkShape(c) && forall j :: RESERVED <= j < c.cnt ==> 0 <= c.paramID[j] < |params|
    ensures |r| == c.cnt
  {
    var strides := Strides(params, c);
    seq(|strides|, j requires 0 <= j < |strides| => CursorAt(strides, j))
  }

  lemma FirstCursor(strides: seq<int>)
    requires |strides| > RESERVED && forall k :: 0 <= k < |strides| ==> strides[k] >= 0
    ensures CursorAt(strides, RESERVED) == 4 * |strides| + strides[0] + strides[1]
  {
    assert strides[..2] == [strides[0]] + [strides[1]] && [strides[0]] == [] + [strides[0]];
    TotalSnoc([strides[0]], strides[1]);
    TotalSnoc([], strides[0]);
  }

  lemma CursorStep(strides: seq<int>, j: nat)
    requires j < |strides| && forall k :: 0 <= k < |strides| ==> strides[k] >= 0
    ensures CursorAt(strides, j + 1) == CursorAt(strides, j) + strides[j]
  {
    assert strides[..j + 1][..j] == strides[..j];
  }

  lemma ChunkReadable(params: seq<Param>, count: nat, c: Chunk)
    requires ChunkShape(c) && RESERVED < c.cnt && count <= |params| && Directory(count, c)
    ensures Readable(params, count, c.paramID[..c.cnt], RESERVED, Cursors(params, c))
  {
    var strides, cursors := Strides(params, c), Cursors(params, c);
    forall m, n | RESERVED <= m < n < c.cnt && n == m + 1
      ensures cursors[n] == cursors[m] + params[c.paramID[m]].plcSize
    {
      CursorStep(strides, m);
    }
  }

  lemma PollIsDeal(s: State, i: nat, data: seq<byte>)
    requires Shape(s) && i < MAXBULK && RESERVED < s.bulk[i].cnt && Directory(s.count, s.bulk[i])
    ensures var c := s.bulk[i];
            Poll(s, i, data).params
            == Deal(s.params, s.count, c.paramID[..c.cnt], RESERVED, 4 * RESERVED, Cursors(s.params, c)[RESERVED], data)
  {
    FirstCursor(Strides(s.params, s.bulk[i]));
  }

  lemma PollDelivers(s: State, i: nat, data: seq<byte>)
    requires Shape(s) && i < MAXBULK && RESERVED < s.bulk[i].cnt && Directory(s.count, s.bulk[i])
    ensures var c := s.bulk[i];
            Dealt(s.params, Poll(s, i, data).params, c.paramID[..c.cnt], RESERVED, Cursors(s.params, c), data)
  {
    var c := s.bulk[i];
    var ids, cursors := c.paramID[..c.cnt], Cursors(s.params, c);
    PollIsDeal(s, i, data);
    ChunkReadable(s.params, s.count, c);
    DealDelivers(s.params, s.count, ids, RESERVED, cursors, data);
  }

  /** Whatever the reply: the parameter a slot names is flagged afterwards exactly
      when it was before or the slot's status word is not zero, its value is the
      bytes behind the status words and the data of the slots before, and nothing
      else of it changes; no parameter that no slot names changes at all. */
  lemma PollGives(s: State, i: nat, data: seq<byte>, j: nat, l: nat)
    requires Shape(s) && i < MAXBULK && RESERVED <= j < s.bulk[i].cnt && Directory(s.count, s.bulk[i])
    requires l < |s.params| && Unnamed(s.bulk[i].paramID[..s.bulk[i].cnt], RESERVED, l)
    ensures var c := s.bulk[i]; var p := s.params[c.paramID[j]];
            var r := Poll(s, i, data); var q := r.params[c.paramID[j]];
            && (q.refreshNeeded <==> p.refreshNeeded || WordAt(data, 4 * j) != 0)
            && q.value == SliceAt(data, CursorAt(Strides(s.params, c), j), p.plcSize)
            && q == p.(refreshNeeded := q.refreshNeeded, value := q.value)
            && r.params[l] == s.params[l] && r == s.(params := r.params)
  {
    PollDelivers(s, i, data);
    assert s.bulk[i].paramID[..s.bulk[i].cnt][j] == s.bulk[i].paramID[j];
  }

  lemma ReachableDirectory(s: State, i: nat)
    requires Inv(s) && NoneLost(s) && i < MAXBULK
    ensures Directory(s.count, s.bulk[i])
  {
    var c := s.bulk[i];
    forall j | RESERVED <= j < c.cnt ensures 1 <= c.paramID[j] < s.count && Places(s.params[c.paramID[j]], i, j) {
      BulkTheorems.SlotNamesItsOwner(s, i, j);
    }
  }

  // ----- the end result -----

  /** The receive buffer after the call: as much of the reply as was asked for, over what was there. */
  function AfterCall(buffer: seq<byte>, reply: seq<byte>, readSize: nat): (r: seq<byte>)
    requires readSize <= |buffer|
    ensures |r| == |buffer|
    ensures |reply| <= readSize ==> reply <= r
  {
    if |reply| <= readSize then reply + buffer[|reply|..] else reply[..readSize] + buffer[readSize..]
  }

  /** Every parameter with a slot in the chunk is in service. */
  ghost predicate ChunkInService(s: State, i: nat)
    requires Shape(s) && i < MAXBULK
  {
    forall j :: RESERVED <= j < s.bulk[i].cnt ==> SlotServed(s, i, j)
  }

  lemma ServedSlot(s: State, i: nat, j: nat)
    requires Inv(s) && NoneLost(s) && i < MAXBULK && RESERVED <= j < s.bulk[i].cnt && SlotServed(s, i, j)
    ensures var k := s.bulk[i].paramID[j];
            && 1 <= k < s.count && Places(s.params[k], i, j)
            && InService(s.log, k, s.params[k])
            && AsksFor(s.bulk[i].sum[j], s.params[k]) && s.bulk[i].sum[j].size == s.params[k].plcSize
  {
    BulkTheorems.SlotNamesItsOwner(s, i, j);
    var k := s.bulk[i].paramID[j];
    assert SyncedAt(s, k);
    var l :| 1 <= l < s.count && Places(s.params[l], i, j) && InService(s.log, l, s.params[l]);
  }

  /** Every slot's parameter is registered and has the size the slot asks for. */
  ghost predicate Aligned(s: State, i: nat)
    requires Shape(s) && i < MAXBULK
  {
    && Directory(s.count, s.bulk[i])
    && forall j :: RESERVED <= j < s.bulk[i].cnt ==> s.params[s.bulk[i].paramID[j]].plcSize == s.bulk[i].sum[j].size
  }

  lemma CursorIsOffset(s: State, i: nat, srv: Server, j: nat)
    requires Shape(s) && i < MAXBULK && Aligned(s, i) && j < s.bulk[i].cnt
    ensures Cursors(s.params, s.bulk[i])[j]
            == 4 * s.bulk[i].cnt + Offset(Blocks(srv, s.bulk[i].sum[..s.bulk[i].cnt]), j)
  {
    var blocks := Blocks(srv, s.bulk[i].sum[..s.bulk[i].cnt]);
    assert Strides(s.params, s.bulk[i]) == Lengths(blocks);
    OffsetIsTotal(blocks, j);
  }

  /** One parameter's share of the reply is what its slot's request reads by itself. */
  lemma SlotRead(s: State, i: nat, srv: Server, data: seq<byte>, j: nat)
    requires Shape(s) && i < MAXBULK && Aligned(s, i) && RESERVED <= j < s.bulk[i].cnt
    requires SumReply(srv, s.bulk[i].sum[..s.bulk[i].cnt]) <= data
    ensures var p := s.params[s.bulk[i].paramID[j]]; var a := ReadOne(srv, s.bulk[i].sum[j]);
            WordAt(data, 4 * j) == a.status && SliceAt(data, Cursors(s.params, s.bulk[i])[j], p.plcSize) == a.data
  {
    var reqs := s.bulk[i].sum[..s.bulk[i].cnt];
    CursorIsOffset(s, i, srv, j);
    StatusAt(srv, reqs, data, j);
    BlockAt(srv, reqs, data, j);
  }

  /** In `r` the parameter of slot `j` has the value its slot's request reads by itself,
      and is flagged exactly if it was or if the server does not know the request. */
  ghost predicate SlotGiven(s: State, i: nat, srv: Server, r: State, j: nat)
    requires Shape(s) && i < MAXBULK && Directory(s.count, s.bulk[i]) && RESERVED <= j < s.bulk[i].cnt
  {
    var c := s.bulk[i];
    var p := s.params[c.paramID[j]];
    c.paramID[j] < |r.params|
    && r.params[c.paramID[j]] == p.(refreshNeeded := p.refreshNeeded || !Knows(srv, c.sum[j]),
                                    value := ReadOne(srv, c.sum[j]).data)
  }

  /** `r` is `s` with every parameter of the chunk given what its slot's request
      reads by itself, and flagged if it was or if the server does not know the request. */
  ghost predicate EachRead(s: State, i: nat, srv: Server, r: State)
    requires Shape(s) && i < MAXBULK && Directory(s.count, s.bulk[i])
  {
    var c := s.bulk[i];
    && |r.params| == |s.params|
    && (forall j :: RESERVED <= j < c.cnt ==> SlotGiven(s, i, srv, r, j))
    && (forall k :: 0 <= k < |s.params| && Unnamed(c.paramID[..c.cnt], RESERVED, k) ==> r.params[k] == s.params[k])
  }

  /** Whatever mix of slots fails: where the sizes agree and the whole reply is
      in the buffer, one sum read is one read per slot. */
  lemma AlignedReplyIsRead(s: State, i: nat, srv: Server, data: seq<byte>)
    requires Shape(s) && i < MAXBULK && RESERVED < s.bulk[i].cnt && Aligned(s, i)
    requires SumReply(srv, s.bulk[i].sum[..s.bulk[i].cnt]) <= data
    ensures EachRead(s, i, srv, Poll(s, i, data))
  {
    var c := s.bulk[i];
    PollDelivers(s, i, data);
    forall j | RESERVED <= j < c.cnt ensures SlotGiven(s, i, srv, Poll(s, i, data), j) {
      SlotRead(s, i, srv, data, j);
      assert c.paramID[..c.cnt][j] == c.paramID[j];
    }
  }

  // ----- when the decoder loses its place -----

  /** The decoder's positions and the reply's agree at every slot exactly when
      all sizes but the last agree. */
  lemma {:induction false} CursorsAgreeIff(strides: seq<int>, sizes: seq<int>)
    requires |strides| == |sizes| > 0
    ensures (forall j :: 0 <= j < |sizes| ==> Total(strides[..j]) == Total(sizes[..j]))
            <==> strides[..|sizes| - 1] == sizes[..|sizes| - 1]
  {
    var n := |sizes| - 1;
    if strides[..n] == sizes[..n] {
      forall j | 0 <= j <= n ensures Total(strides[..j]) == Total(sizes[..j]) {
        assert strides[..j] == strides[..n][..j] == sizes[..n][..j] == sizes[..j];
      }
    } else if forall j :: 0 <= j < |sizes| ==> Total(strides[..j]) == Total(sizes[..j]) {
      forall k | 0 <= k < n ensures strides[k] == sizes[k] {
        assert strides[..k + 1][..k] == strides[..k] && sizes[..k + 1][..k] == sizes[..k];
        assert Total(strides[..k + 1]) == Total(sizes[..k + 1]);
      }
      assert false;
    }
  }

  /** In every reachable state a parameter that has a slot, flagged or not and of
      any size, has the size the slot asks for exactly when it was not described
      with another size since the slot was last written. */
  lemma SizesAgreeIff(s: State, k: nat)
    requires Inv(s) && 1 <= k < s.count && Assigned(s.params[k])
    ensures s.params[k].plcSize == SlotOf(s, s.params[k]).size <==> !Resized(s.log, k)
  {
    assert SizeKnown(s.log, k, s.params[k]);
  }

  /** No slot's parameter was described with another size since the slot was written. */
  ghost predicate Kept(s: State, i: nat)
    requires Shape(s) && i < MAXBULK
  {
    forall j :: RESERVED <= j < s.bulk[i].cnt ==> s.bulk[i].paramID[j] >= 0 && !Resized(s.log, s.bulk[i].paramID[j])
  }

  lemma SlotSizeIff(s: State, i: nat, j: nat)
    requires Inv(s) && NoneLost(s) && i < MAXBULK && RESERVED <= j < s.bulk[i].cnt
    ensures var k := s.bulk[i].paramID[j];
            1 <= k < s.count && (s.params[k].plcSize == s.bulk[i].sum[j].size <==> !Resized(s.log, k))
  {
    BulkTheorems.SlotNamesItsOwner(s, i, j);
    SizesAgreeIff(s, s.bulk[i].paramID[j]);
  }

  /** A chunk's parameters all have the sizes its slots ask for exactly when none was resized. */
  lemma ChunkAlignedIff(s: State, i: nat)
    requires Inv(s) && NoneLost(s) && i < MAXBULK
    ensures Aligned(s, i) <==> Kept(s, i)
  {
    ReachableDirectory(s, i);
    forall j | RESERVED <= j < s.bulk[i].cnt
      ensures s.params[s.bulk[i].paramID[j]].plcSize == s.bulk[i].sum[j].size <==> !Resized(s.log, s.bulk[i].paramID[j])
    {
      SlotSizeIff(s, i, j);
    }
  }

  /** The decoder stands at every slot's own data exactly when none of the
      parameters, the last excepted, was resized. */
  lemma DecoderKeepsPlaceIff(s: State, i: nat, srv: Server)
    requires Inv(s) && NoneLost(s) && i < MAXBULK && s.bulk[i].cnt > RESERVED
    ensures Directory(s.count, s.bulk[i])
    ensures var c := s.bulk[i];
            (forall j :: 0 <= j < c.cnt ==>
               Cursors(s.params, c)[j] == 4 * c.cnt + Offset(Blocks(srv, c.sum[..c.cnt]), j))
            <==> forall j :: RESERVED <= j < c.cnt - 1 ==> !Resized(s.log, c.paramID[j])
  {
    ReachableDirectory(s, i);
    var c := s.bulk[i];
    var blocks := Blocks(srv, c.sum[..c.cnt]);
    var strides, sizes := Strides(s.params, c), Lengths(blocks);
    CursorsAgreeIff(strides, sizes);
    forall j | 0 <= j < c.cnt
      ensures Cursors(s.params, c)[j] == 4 * c.cnt + Offset(blocks, j)
              <==> Total(strides[..j]) == Total(sizes[..j])
    {
      OffsetIsTotal(blocks, j);
      assert Cursors(s.params, c)[j] == CursorAt(strides, j);
    }
    StridesKeptIff(s, i, srv, c.cnt - 1);
  }

  lemma StridesKeptIff(s: State, i: nat, srv: Server, n: nat)
    requires Inv(s) && NoneLost(s) && i < MAXBULK && RESERVED <= n <= s.bulk[i].cnt && Directory(s.count, s.bulk[i])
    ensures var c := s.bulk[i];
            Strides(s.params, c)[..n] == Lengths(Blocks(srv, c.sum[..c.cnt]))[..n]
            <==> forall j :: RESERVED <= j < n ==> !Resized(s.log, c.paramID[j])
  {
    var c := s.bulk[i];
    var strides, sizes := Strides(s.params, c), Lengths(Blocks(srv, c.sum[..c.cnt]));
    forall j | RESERVED <= j < n ensures strides[j] == sizes[j] <==> !Resized(s.log, c.paramID[j]) {
      SlotSizeIff(s, i, j);
    }
    if strides[..n] == sizes[..n] {
      forall j | RESERVED <= j < n ensures !Resized(s.log, c.paramID[j]) {
        assert strides[..n][j] == sizes[..n][j];
      }
    }
  }

  // ----- the end result -----

  /** Every slice the decoder takes lies in the data, as it must for the walk to be safe. */
  ghost predicate Inside(s: State, i: nat, data: seq<byte>)
    requires Shape(s) && i < MAXBULK && Directory(s.count, s.bulk[i])
  {
    forall j :: RESERVED <= j < s.bulk[i].cnt ==>
      Cursors(s.params, s.bulk[i])[j] + s.params[s.bulk[i].paramID[j]].plcSize <= |data|
  }

  lemma EachReadHasSizes(s: State, i: nat, srv: Server, data: seq<byte>)
    requires Shape(s) && i < MAXBULK && RESERVED < s.bulk[i].cnt && Directory(s.count, s.bulk[i])
    requires Inside(s, i, data) && EachRead(s, i, srv, Poll(s, i, data))
    ensures Aligned(s, i)
  {
    var c := s.bulk[i];
    PollDelivers(s, i, data);
    forall j | RESERVED <= j < c.cnt ensures s.params[c.paramID[j]].plcSize == c.sum[j].size {
      var p := s.params[c.paramID[j]];
      assert SlotGiven(s, i, srv, Poll(s, i, data), j);
      assert c.paramID[..c.cnt][j] == c.paramID[j];
      assert |SliceAt(data, Cursors(s.params, c)[j], p.plcSize)| == p.plcSize;
    }
  }

  /** Of a whole reply, whatever mix of slots fails and whatever is flagged: one
      sum read gives each parameter of the chunk exactly what its slot's request
      reads by itself, flags it where that fails and touches nothing else, exactly
      when none of the parameters was resized. */
  lemma SumReadRefinesIff(s: State, i: nat, srv: Server, data: seq<byte>)
    requires Inv(s) && NoneLost(s) && i < MAXBULK && s.bulk[i].cnt > RESERVED
    requires SumReply(srv, s.bulk[i].sum[..s.bulk[i].cnt]) <= data
    ensures Directory(s.count, s.bulk[i])
    ensures Kept(s, i) ==> EachRead(s, i, srv, Poll(s, i, data))
    ensures Inside(s, i, data) && EachRead(s, i, srv, Poll(s, i, data)) ==> Kept(s, i)
  {
    ReachableDirectory(s, i);
    ChunkAlignedIff(s, i);
    if Aligned(s, i) {
      AlignedReplyIsRead(s, i, srv, data);
    }
    if Inside(s, i, data) && EachRead(s, i, srv, Poll(s, i, data)) {
      EachReadHasSizes(s, i, srv, data);
    }
  }

  /** The chunk's parameters are in place and not resized, and the read size covers the reply. */
  ghost predicate Decodable(s: State, i: nat) {
    && Inv(s) && NoneLost(s) && i < MAXBULK && s.bulk[i].cnt > RESERVED && Kept(s, i)
    && 0 <= Total(ReplyBytes(s.bulk[i])) <= s.bulk[i].readSize
  }

  /** A chunk no slot of which is unwritten since the invalidation is decodable if none was resized. */
  lemma WrittenChunkDecodable(s: State, i: nat)
    requires Inv(s) && NoneLost(s) && i < MAXBULK && s.bulk[i].cnt > RESERVED && Kept(s, i)
    requires forall j :: RESERVED <= j < s.bulk[i].cnt ==> !Unwritten(s, i, j)
    ensures Decodable(s, i)
  {
    ReadSizeShortIff(s, i);
    TotalNonNegative(ReplyBytes(s.bulk[i]));
  }

  /** A chunk whose parameters are all up to date and in step with their slots is decodable. */
  lemma ServedChunkDecodable(s: State, i: nat)
    requires Inv(s) && NoneLost(s) && i < MAXBULK && s.bulk[i].cnt > RESERVED && ChunkInService(s, i)
    ensures Decodable(s, i)
  {
    ReadSizeCoversReply(s, i);
    TotalNonNegative(ReplyBytes(s.bulk[i]));
    forall j | RESERVED <= j < s.bulk[i].cnt
      ensures s.bulk[i].paramID[j] >= 0 && !Resized(s.log, s.bulk[i].paramID[j])
    {
      ServedSlot(s, i, j);
    }
  }

  /** One bulk read equals one read per slot, and for a parameter that is up to
      date its slot's request is its own. The buffer must hold the read size,
      which the driver does not check. */
  lemma BulkReadRefinesSingleReads(s: State, i: nat, srv: Server, buffer: seq<byte>)
    requires Decodable(s, i) && s.bulk[i].readSize <= |buffer|
    ensures Directory(s.count, s.bulk[i])
    ensures var c := s.bulk[i];
            var data := AfterCall(buffer, SumReply(srv, c.sum[..c.cnt]), c.readSize);
            && EachRead(s, i, srv, Poll(s, i, data))
            && (forall j :: RESERVED <= j < c.cnt && SlotServed(s, i, j) ==>
                  var p := s.params[c.paramID[j]];
                  !p.refreshNeeded && AsksFor(c.sum[j], p) && c.sum[j].size == p.plcSize)
  {
    var c := s.bulk[i];
    ReplyLength(srv, c);
    SumReadRefinesIff(s, i, srv, AfterCall(buffer, SumReply(srv, c.sum[..c.cnt]), c.readSize));
    forall j | RESERVED <= j < c.cnt && SlotServed(s, i, j)
      ensures var p := s.params[c.paramID[j]];
              !p.refreshNeeded && AsksFor(c.sum[j], p) && c.sum[j].size == p.plcSize
    {
      ServedSlot(s, i, j);
    }
  }

  /** No poll, of this or any other chunk and whatever it flags, takes that away. */
  lemma PollKeepsDecodable(s: State, i: nat, m: nat, data: seq<byte>)
    requires Decodable(s, i) && m < MAXBULK
    ensures Decodable(Poll(s, m, data), i)
  {
    PollKeepsInv(s, m, data);
  }

  // ----- how a slot is left behind -----

  /** A parameter the PLC describes as larger than the limit is subscribed to and
      no longer flagged, and leaves its slot behind. */
  lemma OutgrownSlotIsStale(s: State, k: nat, info: SymInfo, handle: u32, refetch: Option<SymInfo>, ts: Option<u32>)
    requires Inv(s) && 1 <= k < s.count && Assigned(s.params[k]) && s.params[k].refreshNeeded
    requires !s.params[k].isAdr && info.size > SUBSCRIBE_LIMIT
    ensures var t := UpdateParam(s, k, Answers(Asked(Some(info), Some(handle)), true, refetch, true, ts, ts)).0;
            && !t.params[k].refreshNeeded && t.params[k].plcSize == info.size
            && SlotOf(t, t.params[k]) == SlotOf(s, s.params[k])
            && t.params[k].plcSize != SlotOf(t, t.params[k]).size
  {
    OnlyPlcInputsAssigned(s, k);
  }

  /** A parameter that is described but given no handle stays flagged, and leaves
      its slot behind unless it has the size it had. */
  lemma HandlelessSlotIsStaleIff(s: State, k: nat, info: SymInfo, a: Answers)
    requires Inv(s) && 1 <= k < s.count && Assigned(s.params[k]) && s.params[k].refreshNeeded
    requires !s.params[k].isAdr && a.lookup == Asked(Some(info), None)
    ensures var t := UpdateParam(s, k, a).0;
            && t.params[k].refreshNeeded && t.params[k].plcSize == info.size
            && SlotOf(t, t.params[k]) == SlotOf(s, s.params[k])
            && (Resized(t.log, k) <==> info.size != SlotOf(s, s.params[k]).size)
  {
    OnlyPlcInputsAssigned(s, k);
    LogFacts(s.log, Sized(k, info.size));
  }

  /** A parameter that came from the dictionary and is read or written by itself
      takes over the size it is then described with, and leaves its slot behind
      unless that is the size it had. */
  lemma RefetchedSlotIsStaleIff(s: State, k: nat, info: SymInfo, given: Option<u32>, bytes: Option<seq<byte>>)
    requires Inv(s) && 1 <= k < s.count && Assigned(s.params[k]) && LacksInfo(s.params[k])
    ensures var t := Access(s, k, Direct(false, Some(info), given, bytes));
            && t.params[k].refreshNeeded == s.params[k].refreshNeeded
            && t.params[k].plcSize == info.size && !LacksInfo(t.params[k])
            && SlotOf(t, t.params[k]) == SlotOf(s, s.params[k])
            && (Resized(t.log, k) <==> info.size != SlotOf(s, s.params[k]).size)
  {
    LogFacts(s.log, Sized(k, info.size));
  }

  // ----- a read that is too short -----

  lemma {:induction false} CursorGrows(strides: seq<int>, i: nat, j: nat)
    requires i <= j <= |strides| && forall k :: 0 <= k < |strides| ==> strides[k] >= 0
    ensures CursorAt(strides, i) <= CursorAt(strides, j)
    decreases j
  {
    if i < j {
      var before: nat := j - 1;
      CursorGrows(strides, i, before);
      CursorStep(strides, before);
    }
  }

  /** Where a chunk is read with the time slots' share alone, all its parameters
      are given what was in the buffer before the call. */
  lemma ShortReadGivesOldBytes(s: State, i: nat, buffer: seq<byte>, reply: seq<byte>, j: nat)
    requires Inv(s) && i < MAXBULK && s.bulk[i].cnt > RESERVED && Directory(s.count, s.bulk[i])
    requires RESERVED <= j < s.bulk[i].cnt && s.bulk[i].readSize == TS_READ_SIZE <= |buffer|
    ensures var p := s.params[s.bulk[i].paramID[j]]; var at := Cursors(s.params, s.bulk[i])[j];
            SliceAt(AfterCall(buffer, reply, TS_READ_SIZE), at, p.plcSize) == SliceAt(buffer, at, p.plcSize)
  {
    var strides := Strides(s.params, s.bulk[i]);
    assert Opened(s.bulk[i]);
    FirstCursor(strides);
    CursorGrows(strides, RESERVED, j);
    OldBytesBehind(buffer, reply, TS_READ_SIZE, CursorAt(strides, j), s.params[s.bulk[i].paramID[j]].plcSize);
  }

  lemma OldBytesBehind(buffer: seq<byte>, reply: seq<byte>, readSize: nat, at: nat, size: nat)
    requires readSize <= |buffer| && readSize <= at
    ensures SliceAt(AfterCall(buffer, reply, readSize), at, size) == SliceAt(buffer, at, size)
  {
  }
}
