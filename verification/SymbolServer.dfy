/** The symbol side of the PLC: its table, the packed entry it describes a
    symbol with, and the reply to a batched read-write request. */
module SymbolServer {
  import opened Bytes
  import opened SumRequest

  const SYM_HNDBYNAME: u32 := 0xF003
  const SYM_INFOBYNAMEEX: u32 := 0xF009
  const NOT_FOUND: u32 := 0x710
  const FIXED_ENTRY: nat := 30

  function LowerByte(b: byte): byte {
    if 'A' as int <= b <= 'Z' as int then b + 32 else b
  }

  function Lower(name: seq<byte>): (r: seq<byte>)
    ensures |r| == |name|
  {
    seq(|name|, i requires 0 <= i < |name| => LowerByte(name[i]))
  }

  /** The same byte, or the two cases of one ASCII letter. */
  predicate SameLetter(a: byte, b: byte) {
    a == b || (65 <= a <= 90 && b == a + 32) || (97 <= a <= 122 && a == b + 32)
  }

  /** Two spellings of one name. */
  predicate SameName(a: seq<byte>, b: seq<byte>) {
    |a| == |b| && forall i :: 0 <= i < |a| ==> SameLetter(a[i], b[i])
  }

  /** Names share a key exactly when they are spellings of one name. */
  lemma SameKeyIff(a: seq<byte>, b: seq<byte>)
    ensures Lower(a) == Lower(b) <==> SameName(a, b)
  {
    if SameName(a, b) {
      forall i | 0 <= i < |a| ensures Lower(a)[i] == Lower(b)[i] {
        assert SameLetter(a[i], b[i]);
      }
    } else if Lower(a) == Lower(b) {
      forall i | 0 <= i < |a| ensures SameLetter(a[i], b[i]) {
        assert Lower(a)[i] == LowerByte(a[i]) && Lower(b)[i] == LowerByte(b[i]);
      }
      assert false;
    }
  }

  /** A key is the one spelling of its names that has no capital letter. */
  lemma KeyIsSpelling(a: seq<byte>)
    ensures SameName(a, Lower(a)) && Lower(Lower(a)) == Lower(a)
    ensures forall i :: 0 <= i < |a| ==> !(65 <= Lower(a)[i] <= 90)
  {
    SameKeyIff(a, Lower(a));
  }

  type Text = t: seq<byte> | |t| < 0x1_0000 witness []

  datatype SymbolRecord = SymbolRecord(
    group: u32, offset: u32, size: u32, dataType: u32, name: Text, typeName: Text, comment: Text)

  /** Symbols by lower-case name; handles and what each of them denotes; values by address. */
  datatype Plc = Plc(
    table: map<seq<byte>, SymbolRecord>, handles: map<seq<byte>, u32>, values: map<(u32, u32), seq<byte>>)

  function EncodeU16(n: u16): (bs: seq<byte>)
    ensures |bs| == 2
  {
    [n % 0x100, n / 0x100]
  }

  function EntryLength(r: SymbolRecord): u32 {
    FIXED_ENTRY + |r.name| + 1 + |r.typeName| + 1 + |r.comment|
  }

  /** Six words, three lengths, and the three texts, the first two NUL-terminated. */
  function PackedWords(r: SymbolRecord): (bs: seq<byte>)
    ensures |bs| == 24
  {
    EncodeU32(EntryLength(r)) + EncodeU32(r.group) + EncodeU32(r.offset) + EncodeU32(r.size)
    + EncodeU32(r.dataType) + EncodeU32(0)
  }

  function Packed(r: SymbolRecord): (bs: seq<byte>)
    ensures |bs| == EntryLength(r)
  {
    PackedWords(r) + (EncodeU16(|r.name|) + EncodeU16(|r.typeName|) + EncodeU16(|r.comment|))
    + r.name + [0] + r.typeName + [0] + r.comment
  }

  /** What one sub-request gets: a status pair and the bytes it takes up in the data block. */
  datatype SlotReply = SlotReply(result: u32, retLen: u32, payload: seq<byte>)

  function StripZeros(name: seq<byte>): (r: seq<byte>)
    ensures r <= name && (r != [] ==> r[|r| - 1] != 0)
    ensures forall k :: |r| <= k < |name| ==> name[k] == 0
  {
    if name != [] && name[|name| - 1] == 0 then StripZeros(name[..|name| - 1]) else name
  }

  function Refused(r: SubRequest): SlotReply {
    SlotReply(NOT_FOUND, 0, Zeros(r.readLen))
  }

  function AnswerSub(plc: Plc, r: SubRequest): SlotReply {
    if r.group == SYM_INFOBYNAMEEX then
      var key := Lower(r.name);
      if key in plc.table then SlotReply(0, |Packed(plc.table[key])|, Packed(plc.table[key])) else Refused(r)
    else if r.group == SYM_HNDBYNAME then
      var key := Lower(StripZeros(r.name));
      if key in plc.handles then SlotReply(0, 4, EncodeU32(plc.handles[key])) else Refused(r)
    else if (r.group, r.offset) in plc.values then
      var v := plc.values[(r.group, r.offset)];
      var val := if r.readLen <= |v| then v[..r.readLen] else v;
      SlotReply(0, |val|, val)
    else Refused(r)
  }

  /** A description, a handle or a value announces its own length; what the PLC
      does not have is refused with error 0x710, and zeros that are not announced. */
  lemma AnswerMeans(plc: Plc, r: SubRequest)
    ensures var a := AnswerSub(plc, r); var key := Lower(StripZeros(r.name)); var at := (r.group, r.offset);
            && (r.group == 0xF009 && Lower(r.name) in plc.table ==>
                  var p := Packed(plc.table[Lower(r.name)]); a == SlotReply(0, |p|, p))
            && (r.group == 0xF003 && key in plc.handles ==>
                  a.result == 0 && a.retLen == 4 && |a.payload| == 4 && DecodeU32(a.payload) == plc.handles[key])
            && (r.group != 0xF009 && r.group != 0xF003 && at in plc.values ==>
                  a.result == 0 && a.retLen == |a.payload| <= r.readLen && a.payload <= plc.values[at]
                  && (a.retLen < r.readLen ==> a.payload == plc.values[at]))
            && ((if r.group == 0xF009 then Lower(r.name) !in plc.table
                 else if r.group == 0xF003 then key !in plc.handles else at !in plc.values) ==>
                  a.result == 0x710 && a.retLen == 0 && |a.payload| == r.readLen
                  && forall k :: 0 <= k < r.readLen ==> a.payload[k] == 0)
  {
    if Lower(StripZeros(r.name)) in plc.handles {
      DecodeEncodeU32(plc.handles[Lower(StripZeros(r.name))]);
    }
  }

  /** Where each field of a description lies. */
  lemma PackedLayout(r: SymbolRecord)
    ensures var p := Packed(r); var at := 30 + |r.name| + 1;
            && |p| == at + |r.typeName| + 1 + |r.comment|
            && WordAt(p, 0) == |p| && WordAt(p, 4) == r.group && WordAt(p, 8) == r.offset
            && WordAt(p, 12) == r.size && WordAt(p, 16) == r.dataType
            && p[24] as int + 0x100 * p[25] as int == |r.name|
            && p[26] as int + 0x100 * p[27] as int == |r.typeName|
            && p[28] as int + 0x100 * p[29] as int == |r.comment|
            && p[30..at - 1] == r.name && p[at - 1] == 0
            && p[at..at + |r.typeName|] == r.typeName && p[at + |r.typeName|] == 0
            && p[at + |r.typeName| + 1..] == r.comment
  {
    var p, words := Packed(r), PackedWords(r);
    assert p[0..24] == words;
    WordInBlock(p, 0, words, 0, EntryLength(r));
    WordInBlock(p, 0, words, 4, r.group);
    WordInBlock(p, 0, words, 8, r.offset);
    WordInBlock(p, 0, words, 12, r.size);
    WordInBlock(p, 0, words, 16, r.dataType);
    LengthsAndTexts(r);
  }

  lemma LengthsAndTexts(r: SymbolRecord)
    ensures var p := Packed(r); var at := 30 + |r.name| + 1;
            && p[24..30] == EncodeU16(|r.name|) + EncodeU16(|r.typeName|) + EncodeU16(|r.comment|)
            && p[30..at - 1] == r.name && p[at - 1] == 0
            && p[at..at + |r.typeName|] == r.typeName && p[at + |r.typeName|] == 0
            && p[at + |r.typeName| + 1..] == r.comment
  {
    var lengths := EncodeU16(|r.name|) + EncodeU16(|r.typeName|) + EncodeU16(|r.comment|);
    var head := PackedWords(r) + lengths;
    assert Packed(r) == head + r.name + [0] + r.typeName + [0] + r.comment;
    assert head[24..30] == lengths;
  }

  function Answers(plc: Plc, reqs: seq<SubRequest>): (r: seq<SlotReply>)
    ensures |r| == |reqs|
  {
    seq(|reqs|, i requires 0 <= i < |reqs| => AnswerSub(plc, reqs[i]))
  }

  function StatusPairs(slots: seq<SlotReply>): (r: seq<seq<byte>>)
    ensures |r| == |slots| && forall i :: 0 <= i < |r| ==> |r[i]| == 8
  {
    seq(|slots|, i requires 0 <= i < |slots| => EncodeU32(slots[i].result) + EncodeU32(slots[i].retLen))
  }

  function Payloads(slots: seq<SlotReply>): (r: seq<seq<byte>>)
    ensures |r| == |slots|
  {
    seq(|slots|, i requires 0 <= i < |slots| => slots[i].payload)
  }

  function EncodeReply(slots: seq<SlotReply>): seq<byte> {
    Concat(StatusPairs(slots)) + Concat(Payloads(slots))
  }

  /** The server's loop over the parsed sub-requests. */
  method HandleSumupReadwrite(plc: Plc, n: nat, writeData: seq<byte>) returns (reply: seq<byte>)
    requires HEADER_SIZE * n <= |writeData|
    requires |EncodeReply(Answers(plc, ParseSum(n, writeData)))| < TWO32
    ensures var slots := Answers(plc, ParseSum(n, writeData));
            reply == EncodeU32(0) + EncodeU32(|EncodeReply(slots)|) + EncodeReply(slots)
  {
    var rqList := ParseSumRequest(n, writeData);
    ghost var slots := Answers(plc, rqList);
    var statusBlock, dataBlock := [], [];
    for i := 0 to n
      invariant statusBlock == Concat(StatusPairs(slots)[..i])
      invariant dataBlock == Concat(Payloads(slots)[..i])
    {
      var status, data := HandleSub(plc, rqList[i]);
      OffsetStep(StatusPairs(slots), i);
      OffsetStep(Payloads(slots), i);
      statusBlock := statusBlock + status;
      dataBlock := dataBlock + data;
    }
    assert StatusPairs(slots)[..n] == StatusPairs(slots) && Payloads(slots)[..n] == Payloads(slots);
    var readData := statusBlock + dataBlock;
    reply := EncodeU32(0) + EncodeU32(|readData|) + readData;
  }

  /** One sub-request, dispatched on its group. */
  method HandleSub(plc: Plc, r: SubRequest) returns (status: seq<byte>, data: seq<byte>)
    ensures status == EncodeU32(AnswerSub(plc, r).result) + EncodeU32(AnswerSub(plc, r).retLen)
    ensures data == AnswerSub(plc, r).payload
  {
    if r.group == SYM_INFOBYNAMEEX && Lower(r.name) in plc.table {
      data := Packed(plc.table[Lower(r.name)]);
    } else if r.group == SYM_HNDBYNAME && Lower(StripZeros(r.name)) in plc.handles {
      data := EncodeU32(plc.handles[Lower(StripZeros(r.name))]);
    } else if r.group != SYM_INFOBYNAMEEX && r.group != SYM_HNDBYNAME && (r.group, r.offset) in plc.values {
      var v := plc.values[(r.group, r.offset)];
      data := if r.readLen <= |v| then v[..r.readLen] else v;
    } else {
      status := EncodeU32(NOT_FOUND) + EncodeU32(0);
      data := Zeros(r.readLen);
      return;
    }
    status := EncodeU32(0) + EncodeU32(|data|);
  }

  // ----- reading a reply back -----

  function ResultAt(buf: seq<byte>, i: nat): u32 {
    WordAt(buf, 8 * i)
  }

  function RetLenAt(buf: seq<byte>, i: nat): u32 {
    WordAt(buf, 8 * i + 4)
  }

  lemma PairInReply(slots: seq<SlotReply>, i: nat)
    requires i < |slots|
    ensures |Concat(StatusPairs(slots))| == 8 * |slots|
    ensures EncodeReply(slots)[8 * i..8 * i + 8] == StatusPairs(slots)[i]
  {
    var pairs := StatusPairs(slots);
    UniformOffset(pairs, 8, i);
    UniformOffset(pairs, 8, |slots|);
    assert pairs[..|slots|] == pairs;
    ConcatSlice(pairs, i);
    assert EncodeReply(slots)[8 * i..8 * i + 8] == Concat(pairs)[8 * i..8 * i + 8];
  }

  lemma PairFound(buf: seq<byte>, at: nat, a: u32, b: u32)
    requires at + 8 <= |buf| && buf[at..at + 8] == EncodeU32(a) + EncodeU32(b)
    ensures WordAt(buf, at) == a && WordAt(buf, at + 4) == b
  {
    var pair := EncodeU32(a) + EncodeU32(b);
    PartFound(buf, at, pair, 0, 4);
    PartFound(buf, at, pair, 4, 8);
    WordFound(buf, at, a);
    WordFound(buf, at + 4, b);
  }

  lemma StatusPairAt(slots: seq<SlotReply>, buf: seq<byte>, i: nat)
    requires i < |slots| && EncodeReply(slots) <= buf
    ensures ResultAt(buf, i) == slots[i].result && RetLenAt(buf, i) == slots[i].retLen
    ensures |Concat(StatusPairs(slots))| == 8 * |slots|
  {
    PairInReply(slots, i);
    PartFound(buf, 0, EncodeReply(slots), 8 * i, 8 * i + 8);
    PairFound(buf, 8 * i, slots[i].result, slots[i].retLen);
  }

  lemma PayloadAt(slots: seq<SlotReply>, buf: seq<byte>, i: nat)
    requires i < |slots| && EncodeReply(slots) <= buf
    ensures SliceAt(buf, 8 * |slots| + Offset(Payloads(slots), i), |slots[i].payload|) == slots[i].payload
  {
    StatusPairAt(slots, buf, i);
    ConcatSlice(Payloads(slots), i);
    var pairs, data := Concat(StatusPairs(slots)), Concat(Payloads(slots));
    FoundBehind(buf, pairs, data, Offset(Payloads(slots), i), slots[i].payload);
  }

  lemma FoundBehind(buf: seq<byte>, pairs: seq<byte>, data: seq<byte>, at: nat, payload: seq<byte>)
    requires pairs + data <= buf && at + |payload| <= |data| && data[at..at + |payload|] == payload
    ensures SliceAt(buf, |pairs| + at, |payload|) == payload
  {
    var n := |payload|;
    PartFound(buf, 0, pairs + data, |pairs| + at, |pairs| + at + n);
    assert (pairs + data)[|pairs| + at..|pairs| + at + n] == data[at..at + n];
  }
}
