/** The batched symbol resolver as functions: deduplication, the walk over a
    variable-length reply, the dictionary, the handles, and the slow path. */
module SymbolModel {
  import opened Bytes
  import opened SumRequest
  import opened SymbolServer

  const ENTRY_SIZE: nat := 824
  const MIN_ENTRY: nat := 36
  const NAME_LIMIT: nat := 767
  const ADST_VOID: u32 := 0

  type Key = seq<byte>

  datatype Info = Info(size: u32, dataType: u32)

  datatype DictEntry = DictEntry(symbol: Name, symbolLower: Key, size: u32, adst: u32, handle: u32, resolved: bool)

  // ----- case-insensitive deduplication -----

  function LowerKeys(symbols: seq<Name>): set<Key> {
    set i | 0 <= i < |symbols| :: Lower(symbols[i])
  }

  /** The first spelling of each name. */
  function Dedup(symbols: seq<Name>): (r: seq<Name>)
    ensures LowerKeys(r) == LowerKeys(symbols)
  {
    if symbols == [] then []
    else
      var init := symbols[..|symbols| - 1];
      var last := symbols[|symbols| - 1];
      DedupStep(Dedup(init), init, symbols);
      if Lower(last) in LowerKeys(init) then Dedup(init) else Dedup(init) + [last]
  }

  lemma DedupStep(r: seq<Name>, init: seq<Name>, symbols: seq<Name>)
    requires symbols != [] && init == symbols[..|symbols| - 1] && LowerKeys(r) == LowerKeys(init)
    ensures LowerKeys(symbols) == LowerKeys(init) + {Lower(symbols[|symbols| - 1])}
    ensures LowerKeys(r + [symbols[|symbols| - 1]]) == LowerKeys(symbols)
  {
    KeysSnoc(init, symbols[|symbols| - 1]);
    KeysSnoc(r, symbols[|symbols| - 1]);
    assert init + [symbols[|symbols| - 1]] == symbols;
  }

  lemma KeysSnoc(symbols: seq<Name>, s: Name)
    ensures LowerKeys(symbols + [s]) == LowerKeys(symbols) + {Lower(s)}
  {
    var more := symbols + [s];
    forall k | k in LowerKeys(symbols) ensures k in LowerKeys(more) {
      var i :| 0 <= i < |symbols| && Lower(symbols[i]) == k;
      assert more[i] == symbols[i];
    }
    assert more[|symbols|] == s;
  }

  ghost predicate Distinct(symbols: seq<Name>) {
    forall i, j :: 0 <= i < j < |symbols| ==> !SameName(symbols[i], symbols[j])
  }

  ghost predicate Asked(symbols: seq<Name>, name: Name) {
    exists i :: 0 <= i < |symbols| && SameName(symbols[i], name)
  }

  /** A key is there exactly when some spelling of the name is. */
  lemma KeyAskedIff(symbols: seq<Name>, name: Name)
    ensures Lower(name) in LowerKeys(symbols) <==> Asked(symbols, name)
  {
    forall i | 0 <= i < |symbols| ensures Lower(symbols[i]) == Lower(name) <==> SameName(symbols[i], name) {
      SameKeyIff(symbols[i], name);
    }
  }

  /** No two of the names left are spellings of one another, and some spelling of
      each name is left. */

  lemma {:induction false} DedupIsDistinct(symbols: seq<Name>)
    ensures Distinct(Dedup(symbols))
    ensures forall i :: 0 <= i < |symbols| ==> Asked(Dedup(symbols), symbols[i])
  {
    if symbols != [] {
      var init, last := symbols[..|symbols| - 1], symbols[|symbols| - 1];
      DedupIsDistinct(init);
      KeyAskedIff(Dedup(init), last);
    }
    forall i | 0 <= i < |symbols| ensures Asked(Dedup(symbols), symbols[i]) {
      KeyAskedIff(Dedup(symbols), symbols[i]);
      assert Lower(symbols[i]) in LowerKeys(symbols);
    }
  }

  /** No earlier name is another spelling of name `m`. */
  ghost predicate First(symbols: seq<Name>, m: nat) {
    m < |symbols| && !Asked(symbols[..m], symbols[m])
  }

  /** Exactly the first spellings are left, in the order in which they came:
      name `m` lies behind those left of the names before it. */
  lemma {:induction false} DedupKeepsFirst(symbols: seq<Name>, m: nat)
    requires m < |symbols|
    ensures var before := Dedup(symbols[..m]);
            if First(symbols, m) then before + [symbols[m]] <= Dedup(symbols)
            else before == Dedup(symbols[..m + 1]) && before <= Dedup(symbols)
    decreases |symbols|
  {
    var last := |symbols| - 1;
    var init := symbols[..last];
    if m == last {
      assert symbols[..m + 1] == symbols;
      KeyAskedIff(init, symbols[last]);
    } else {
      DedupKeepsFirst(init, m);
      assert init[..m] == symbols[..m] && init[..m + 1] == symbols[..m + 1];
    }
  }

  // ----- one chunk's reply -----

  /** What a call leaves behind: an error, or `bytesRead` and the bytes put into the zeroed buffer. */
  datatype CallResult = Failed | Replied(bytesRead: nat, data: seq<byte>)

  /** The PLC's side of one batched call: the number of sub-requests and the write buffer determine the result. */
  type Ads = (nat, seq<byte>) -> CallResult

  function InfoRequests(names: seq<Name>): (r: seq<SubRequest>)
    ensures |r| == |names|
  {
    seq(|names|, i requires 0 <= i < |names| => SubRequest(SYM_INFOBYNAMEEX, 0, ENTRY_SIZE, names[i]))
  }

  function HandleRequests(names: seq<Name>): (r: seq<SubRequest>)
    ensures |r| == |names|
  {
    seq(|names|, i requires 0 <= i < |names| => SubRequest(SYM_HNDBYNAME, 0, 4, names[i]))
  }

  function InfoCall(ads: Ads, names: seq<Name>): CallResult {
    ads(|names|, EncodeSum(InfoRequests(names)))
  }

  function HandleCall(ads: Ads, names: seq<Name>): CallResult {
    ads(|names|, EncodeSum(HandleRequests(names)))
  }

  function ReadBuf(call: CallResult, size: nat): (r: seq<byte>)
    requires call.Replied?
    ensures |r| == size
    ensures |call.data| <= size ==> call.data <= r
  {
    if |call.data| <= size then call.data + Zeros(size - |call.data|) else call.data[..size]
  }

  /** Where the walk stands before slot `i`: behind the status pairs, past what the slots said they returned. */
  function DataAt(n: nat, buf: seq<byte>, i: nat): nat {
    if i == 0 then 8 * n else DataAt(n, buf, i - 1) + RetLenAt(buf, i - 1)
  }

  function EntryInfo(entry: seq<byte>): Info {
    Info(WordAt(entry, 12), WordAt(entry, 16))
  }

  function Copied(retLen: nat): (r: nat)
    ensures r <= ENTRY_SIZE && r <= retLen
  {
    if retLen <= ENTRY_SIZE then retLen else ENTRY_SIZE
  }

  function SlotInfo(n: nat, buf: seq<byte>, i: nat): Option<Info> {
    if ResultAt(buf, i) != 0 || RetLenAt(buf, i) < MIN_ENTRY then None
    else Some(EntryInfo(SliceAt(buf, DataAt(n, buf, i), Copied(RetLenAt(buf, i)))))
  }

  function InfoReadSize(n: nat): nat {
    8 * n + ENTRY_SIZE * n
  }

  predicate Overflows(n: nat, call: CallResult) {
    call.Replied? && call.bytesRead > InfoReadSize(n)
  }

  function ChunkInfos(n: nat, call: CallResult): (r: seq<Option<Info>>)
    ensures |r| == n
  {
    match call
    case Failed => seq(n, i => None)
    case Replied(_, _) => seq(n, i requires 0 <= i < n => SlotInfo(n, ReadBuf(call, InfoReadSize(n)), i))
  }

  function InfosOf(symbols: seq<Name>, ads: Ads, k: nat): (r: seq<Option<Info>>)
    requires k < ChunkCount(|symbols|)
    ensures |r| == |ChunkOf(symbols, k)|
  {
    ChunkInfos(|ChunkOf(symbols, k)|, InfoCall(ads, ChunkOf(symbols, k)))
  }

  /** The outcome of every symbol in the first `k` chunks. */
  function InfosUpTo(symbols: seq<Name>, ads: Ads, k: nat): (r: seq<Option<Info>>)
    requires k <= ChunkCount(|symbols|)
    ensures |r| == ChunkStart(|symbols|, k)
  {
    if k == 0 then []
    else InfosUpTo(symbols, ads, k - 1) + InfosOf(symbols, ads, k - 1)
  }

  // ----- the dictionary -----

  function NewEntry(symbol: Name, info: Info): DictEntry {
    DictEntry(symbol, Lower(symbol), info.size, info.dataType, 0, false)
  }

  /** An entry for each symbol whose slot succeeded; an entry already there keeps its handle. */
  function Gathered(symbols: seq<Name>, infos: seq<Option<Info>>): map<Key, DictEntry>
    requires |infos| <= |symbols|
  {
    if infos == [] then map[]
    else
      var i := |infos| - 1;
      var d := Gathered(symbols, infos[..i]);
      match infos[i]
      case None => d
      case Some(info) => Put(d, symbols[i], info)
  }

  function Put(d: map<Key, DictEntry>, symbol: Name, info: Info): map<Key, DictEntry> {
    var key := Lower(symbol);
    d[key := NewEntry(symbol, info).(handle := if key in d then d[key].handle else 0)]
  }

  function CountOk(infos: seq<Option<Info>>): nat {
    if infos == [] then 0 else CountOk(infos[..|infos| - 1]) + if infos[|infos| - 1].Some? then 1 else 0
  }

  /** The position among the first |infos| symbols that produced an entry. */
  ghost predicate MadeBy(symbols: seq<Name>, infos: seq<Option<Info>>, key: Key, i: nat)
    requires |infos| <= |symbols|
  {
    i < |infos| && infos[i].Some? && Lower(symbols[i]) == key
  }

  /** No other entry than one per symbol whose slot succeeded. */
  lemma {:induction false} GatheredOnly(symbols: seq<Name>, infos: seq<Option<Info>>, key: Key)
    requires |infos| <= |symbols| && key in Gathered(symbols, infos)
    ensures exists i: nat :: MadeBy(symbols, infos, key, i)
    decreases |infos|
  {
    var n := |infos| - 1;
    if key in Gathered(symbols, infos[..n]) {
      GatheredOnly(symbols, infos[..n], key);
      var i: nat :| MadeBy(symbols, infos[..n], key, i);
      assert MadeBy(symbols, infos, key, i);
    } else {
      assert MadeBy(symbols, infos, key, n);
    }
  }

  lemma NewKey(symbols: seq<Name>, infos: seq<Option<Info>>)
    requires |infos| < |symbols| && Distinct(symbols)
    ensures Lower(symbols[|infos|]) !in Gathered(symbols, infos)
  {
    var key := Lower(symbols[|infos|]);
    if key in Gathered(symbols, infos) {
      GatheredOnly(symbols, infos, key);
      var i: nat :| MadeBy(symbols, infos, key, i);
      SameKeyIff(symbols[i], symbols[|infos|]);
    }
  }

  /** Each symbol whose slot succeeded has the entry of its own slot: distinct
      names never overwrite one another. */
  lemma {:induction false} GatheredEntry(symbols: seq<Name>, infos: seq<Option<Info>>, i: nat)
    requires |infos| <= |symbols| && Distinct(symbols) && i < |infos| && infos[i].Some?
    ensures Lower(symbols[i]) in Gathered(symbols, infos)
    ensures Gathered(symbols, infos)[Lower(symbols[i])]
            == DictEntry(symbols[i], Lower(symbols[i]), infos[i].value.size, infos[i].value.dataType, 0, false)
    decreases |infos|
  {
    var n := |infos| - 1;
    if i == n {
      NewKey(symbols, infos[..n]);
    } else {
      SameKeyIff(symbols[i], symbols[n]);
      GatheredEntry(symbols, infos[..n], i);
    }
  }

  /** As many entries as slots that succeeded. */
  lemma {:induction false} GatheredSize(symbols: seq<Name>, infos: seq<Option<Info>>)
    requires |infos| <= |symbols| && Distinct(symbols)
    ensures |Gathered(symbols, infos)| == CountOk(infos)
    decreases |infos|
  {
    if infos != [] {
      GatheredSize(symbols, infos[..|infos| - 1]);
      NewKey(symbols, infos[..|infos| - 1]);
    }
  }

  // ----- the walk finds each slot's own payload -----

  /** Every slot's payload takes up exactly the bytes the slot says it returned. */
  ghost predicate Compact(slots: seq<SlotReply>) {
    forall i :: 0 <= i < |slots| ==> |slots[i].payload| == slots[i].retLen
  }

  /** One slot further, the walk moves by what was announced and the data by what is there. */
  lemma WalkStep(slots: seq<SlotReply>, buf: seq<byte>, i: nat)
    requires i < |slots| && EncodeReply(slots) <= buf
    ensures DataAt(|slots|, buf, i + 1) == DataAt(|slots|, buf, i) + slots[i].retLen
    ensures Offset(Payloads(slots), i + 1) == Offset(Payloads(slots), i) + |slots[i].payload|
  {
    StatusPairAt(slots, buf, i);
    OffsetStep(Payloads(slots), i);
  }

  lemma {:induction false} WalkAt(slots: seq<SlotReply>, buf: seq<byte>, i: nat)
    requires i <= |slots| && EncodeReply(slots) <= buf
    requires forall j :: 0 <= j < i ==> |slots[j].payload| == slots[j].retLen
    ensures DataAt(|slots|, buf, i) == 8 * |slots| + Offset(Payloads(slots), i)
    decreases i
  {
    if i > 0 {
      WalkAt(slots, buf, i - 1);
      WalkStep(slots, buf, i - 1);
    }
  }

  /** With payloads no shorter than announced, the walk stands at slot `i`'s
      payload exactly when every earlier payload was as long as announced. */
  lemma {:induction false} WalkAlignedIff(slots: seq<SlotReply>, buf: seq<byte>, i: nat)
    requires i <= |slots| && EncodeReply(slots) <= buf
    requires forall j :: 0 <= j < |slots| ==> slots[j].retLen <= |slots[j].payload|
    ensures DataAt(|slots|, buf, i) <= 8 * |slots| + Offset(Payloads(slots), i)
    ensures DataAt(|slots|, buf, i) == 8 * |slots| + Offset(Payloads(slots), i)
            <==> forall j :: 0 <= j < i ==> |slots[j].payload| == slots[j].retLen
    decreases i
  {
    if i > 0 {
      WalkAlignedIff(slots, buf, i - 1);
      WalkStep(slots, buf, i - 1);
    }
  }

  /** The server zero-fills the slot of an unknown symbol without announcing the
      bytes, so the walk stays aligned up to slot `i` exactly when every earlier
      symbol was known. */
  lemma {:induction false} ServerWalkAlignedIff(plc: Plc, reqs: seq<SubRequest>, buf: seq<byte>, i: nat)
    requires i <= |reqs| && EncodeReply(Answers(plc, reqs)) <= buf
    requires forall j :: 0 <= j < |reqs| ==> reqs[j].group == SYM_INFOBYNAMEEX && reqs[j].readLen == ENTRY_SIZE
    ensures DataAt(|reqs|, buf, i) == 8 * |reqs| + Offset(Payloads(Answers(plc, reqs)), i)
            <==> forall j :: 0 <= j < i ==> Lower(reqs[j].name) in plc.table
  {
    var slots := Answers(plc, reqs);
    forall j | 0 <= j < |reqs|
      ensures slots[j].retLen <= |slots[j].payload|
      ensures |slots[j].payload| == slots[j].retLen <==> Lower(reqs[j].name) in plc.table
    {
      AnswerAnnounced(plc, reqs[j]);
    }
    WalkAlignedIff(slots, buf, i);
  }

  /** A description announces its bytes exactly when the symbol is known. */
  lemma AnswerAnnounced(plc: Plc, r: SubRequest)
    requires r.group == SYM_INFOBYNAMEEX && r.readLen == ENTRY_SIZE
    ensures AnswerSub(plc, r).retLen <= |AnswerSub(plc, r).payload|
    ensures |AnswerSub(plc, r).payload| == AnswerSub(plc, r).retLen <==> Lower(r.name) in plc.table
  {
  }

  /** A reply that describes the PLC's symbols: a slot that succeeds carries the
      packed entry of the symbol asked for. */
  ghost predicate Describes(plc: Plc, names: seq<Name>, slots: seq<SlotReply>) {
    && |slots| == |names|
    && forall i :: 0 <= i < |slots| && slots[i].result == 0 ==>
         Lower(names[i]) in plc.table && slots[i].payload == Packed(plc.table[Lower(names[i])])
  }

  function InfoOf(r: SymbolRecord): Info {
    Info(r.size, r.dataType)
  }

  lemma PackedWordsFound(r: SymbolRecord, n: nat)
    requires 24 <= n <= |Packed(r)|
    ensures EntryInfo(Packed(r)[..n]) == InfoOf(r)
  {
    var entry, words := Packed(r)[..n], PackedWords(r);
    assert entry[0..24] == words;
    PartFound(entry, 0, words, 12, 16);
    PartFound(entry, 0, words, 16, 20);
    WordFound(entry, 12, r.size);
    WordFound(entry, 16, r.dataType);
  }

  /** What was learnt about a symbol, if anything, is what the PLC's table says. */
  predicate InfoTrue(plc: Plc, name: Name, info: Option<Info>) {
    info.Some? ==>
      var key := Lower(name);
      key in plc.table && info.value.size == plc.table[key].size && info.value.dataType == plc.table[key].dataType
  }

  lemma WalkReads(slots: seq<SlotReply>, buf: seq<byte>, i: nat, n: nat)
    requires Compact(slots) && EncodeReply(slots) <= buf && i < |slots| && n <= |slots[i].payload|
    ensures SliceAt(buf, DataAt(|slots|, buf, i), n) == slots[i].payload[..n]
  {
    WalkAt(slots, buf, i);
    PayloadAt(slots, buf, i);
    StatusPairAt(slots, buf, i);
    ConcatSlice(Payloads(slots), i);
    PartFound(buf, DataAt(|slots|, buf, i), slots[i].payload, 0, n);
  }

  /** The walk takes a slot exactly when it succeeded and is long enough, and
      what it takes describes the slot's own symbol. */
  lemma SlotDescribesSymbol(plc: Plc, names: seq<Name>, slots: seq<SlotReply>, buf: seq<byte>, i: nat)
    requires Describes(plc, names, slots) && Compact(slots) && EncodeReply(slots) <= buf && i < |slots|
    ensures SlotInfo(|slots|, buf, i).Some? <==> slots[i].result == 0 && slots[i].retLen >= 36
    ensures InfoTrue(plc, names[i], SlotInfo(|slots|, buf, i))
  {
    StatusPairAt(slots, buf, i);
    if slots[i].result == 0 && slots[i].retLen >= MIN_ENTRY {
      WalkReads(slots, buf, i, Copied(slots[i].retLen));
      PackedWordsFound(plc.table[Lower(names[i])], Copied(slots[i].retLen));
    }
  }

  // ----- handles -----

  function HandleReadSize(n: nat): nat {
    12 * n
  }

  function SlotHandle(n: nat, buf: seq<byte>, i: nat): Option<u32> {
    var h := WordAt(buf, 8 * n + 4 * i);
    if ResultAt(buf, i) == 0 && h != 0 then Some(h) else None
  }

  function ChunkHandles(n: nat, call: CallResult): (r: seq<Option<u32>>)
    ensures |r| == n
  {
    match call
    case Failed => seq(n, i => None)
    case Replied(_, _) => seq(n, i requires 0 <= i < n => SlotHandle(n, ReadBuf(call, HandleReadSize(n)), i))
  }

  /** The spellings under which the keys' symbols were first seen. */
  function SymbolsOf(d: map<Key, DictEntry>, keys: seq<Key>): (r: seq<Name>)
    ensures |r| == |keys|
  {
    seq(|keys|, i requires 0 <= i < |keys| => if keys[i] in d then d[keys[i]].symbol else [])
  }

  function HandlesOf(d: map<Key, DictEntry>, order: seq<Key>, ads: Ads, k: nat): (r: seq<Option<u32>>)
    requires k < ChunkCount(|order|)
    ensures |r| == |ChunkOf(order, k)|
  {
    ChunkHandles(|ChunkOf(order, k)|, HandleCall(ads, SymbolsOf(d, ChunkOf(order, k))))
  }

  function HandlesUpTo(d: map<Key, DictEntry>, order: seq<Key>, ads: Ads, k: nat): (r: seq<Option<u32>>)
    requires k <= ChunkCount(|order|)
    ensures |r| == ChunkStart(|order|, k)
  {
    if k == 0 then []
    else HandlesUpTo(d, order, ads, k - 1) + HandlesOf(d, order, ads, k - 1)
  }

  /** The dictionary with the first |handles| entries' handles filled in, in visiting order. */
  function WithHandles(d: map<Key, DictEntry>, order: seq<Key>, handles: seq<Option<u32>>): map<Key, DictEntry>
    requires |handles| <= |order|
  {
    if handles == [] then d
    else
      var i := |handles| - 1;
      var before := WithHandles(d, order, handles[..i]);
      if handles[i].Some? && order[i] in before
      then before[order[i] := before[order[i]].(handle := handles[i].value, resolved := true)] else before
  }

  lemma {:induction false} WithHandlesKeeps(d: map<Key, DictEntry>, order: seq<Key>, handles: seq<Option<u32>>, key: Key)
    requires |handles| <= |order| && key in d
    ensures key in WithHandles(d, order, handles)
    ensures WithHandles(d, order, handles)[key].symbol == d[key].symbol
    decreases |handles|
  {
    if handles != [] {
      WithHandlesKeeps(d, order, handles[..|handles| - 1], key);
    }
  }

  function Resolve(e: DictEntry, handle: Option<u32>): DictEntry {
    if handle.Some? then e.(handle := handle.value, resolved := true) else e
  }

  ghost predicate NoRepeats(order: seq<Key>) {
    forall i, j :: 0 <= i < j < |order| ==> order[i] != order[j]
  }

  /** Each visited entry gets its own handle, and nothing else changes. */
  lemma {:induction false} WithHandlesExactly(d: map<Key, DictEntry>, order: seq<Key>, handles: seq<Option<u32>>, key: Key)
    requires |handles| <= |order| && key in d && NoRepeats(order)
    ensures key in WithHandles(d, order, handles)
    ensures forall i :: 0 <= i < |handles| && order[i] == key ==>
              WithHandles(d, order, handles)[key]
              == if handles[i].Some? then d[key].(handle := handles[i].value, resolved := true) else d[key]
    ensures (forall i :: 0 <= i < |handles| ==> order[i] != key) ==> WithHandles(d, order, handles)[key] == d[key]
  {
    if handles != [] {
      WithHandlesExactly(d, order, handles[..|handles| - 1], key);
    }
  }

  // ----- the cache against the slow path -----

  predicate Hit(d: map<Key, DictEntry>, name: Name) {
    Lower(name) in d
    && d[Lower(name)].resolved && d[Lower(name)].size > 0 && d[Lower(name)].adst != ADST_VOID
  }

  /** What a lookup finds. */
  function Found(d: map<Key, DictEntry>, name: Name): Option<DictEntry> {
    if Hit(d, name) then Some(d[Lower(name)]) else None
  }

  /** Every spelling of a name finds the same. */
  lemma SpellingsFindSame(d: map<Key, DictEntry>, a: Name, b: Name)
    requires SameName(a, b)
    ensures Found(d, a) == Found(d, b)
  {
    SameKeyIff(a, b);
  }

  /** adsGetSymInfoByName: the entry read into a zeroed structure, refused when its name is too long. */
  function SlowInfo(plc: Plc, name: Name): Option<Info> {
    var key := Lower(name);
    if key !in plc.table then None
    else
      var entry := Packed(plc.table[key]);
      if |plc.table[key].name| >= NAME_LIMIT then None
      else Some(EntryInfo(entry[..Copied(|entry|)]))
  }

  /** Every chunk either failed or fits and describes the PLC compactly. */
  ghost predicate InfoCallsDescribe(plc: Plc, symbols: seq<Name>, ads: Ads) {
    forall k :: 0 <= k < ChunkCount(|symbols|) ==> InfoChunkDescribes(plc, symbols, ads, k)
  }

  ghost predicate InfoChunkDescribes(plc: Plc, symbols: seq<Name>, ads: Ads, k: nat)
    requires k < ChunkCount(|symbols|)
  {
    InfoCallDescribes(plc, ChunkOf(symbols, k), InfoCall(ads, ChunkOf(symbols, k)))
  }

  ghost predicate InfoCallDescribes(plc: Plc, names: seq<Name>, call: CallResult) {
    call.Failed? ||
    (|call.data| <= InfoReadSize(|names|)
     && exists slots :: Describes(plc, names, slots) && Compact(slots) && EncodeReply(slots) <= call.data)
  }

  /** Every chunk's reply gives handles of the symbols asked for. */
  ghost predicate HandleCallsDenote(denotes: u32 -> Key, d: map<Key, DictEntry>, order: seq<Key>, ads: Ads) {
    forall k :: 0 <= k < ChunkCount(|order|) ==> HandleChunkDenotes(denotes, d, order, ads, k)
  }

  ghost predicate HandleChunkDenotes(denotes: u32 -> Key, d: map<Key, DictEntry>, order: seq<Key>, ads: Ads, k: nat)
    requires k < ChunkCount(|order|)
  {
    HandleCallDenotes(denotes, ChunkOf(order, k), HandleCall(ads, SymbolsOf(d, ChunkOf(order, k))))
  }

  /** A slot of one word: a handle, which denotes the key if it is given with success. */
  ghost predicate WordSlot(denotes: u32 -> Key, key: Key, slot: SlotReply) {
    |slot.payload| == 4
    && (slot.result == 0 && DecodeU32(slot.payload) != 0 ==> denotes(DecodeU32(slot.payload)) == key)
  }

  ghost predicate WordSlots(denotes: u32 -> Key, keys: seq<Key>, slots: seq<SlotReply>) {
    |slots| == |keys| && forall i :: 0 <= i < |slots| ==> WordSlot(denotes, keys[i], slots[i])
  }

  /** The call failed, or its reply is one word per slot, each a handle of the symbol asked for. */
  ghost predicate HandleCallDenotes(denotes: u32 -> Key, keys: seq<Key>, call: CallResult) {
    call.Failed? ||
    (|call.data| <= HandleReadSize(|keys|)
     && exists slots :: WordSlots(denotes, keys, slots) && EncodeReply(slots) <= call.data)
  }

  lemma ChunkElement<T>(xs: seq<T>, k: nat, i: nat)
    requires k < ChunkCount(|xs|) && i < |ChunkOf(xs, k)|
    ensures ChunkOf(xs, k)[i] == xs[ChunkStart(|xs|, k) + i]
  {
  }

  lemma ChunkJoins<T, R>(xs: seq<T>, k: nat, before: seq<R>, more: seq<R>, truth: (T, R) -> bool)
    requires k < ChunkCount(|xs|) && |before| == ChunkStart(|xs|, k) && |more| == |ChunkOf(xs, k)|
    requires forall i :: 0 <= i < |before| ==> truth(xs[i], before[i])
    requires forall i :: 0 <= i < |more| ==> truth(ChunkOf(xs, k)[i], more[i])
    ensures forall i :: 0 <= i < |before + more| ==> truth(xs[i], (before + more)[i])
  {
    forall i | 0 <= i < |before + more| ensures truth(xs[i], (before + more)[i]) {
      if i >= |before| {
        ChunkElement(xs, k, i - |before|);
      }
    }
  }

  ghost predicate InfosTrue(plc: Plc, names: seq<Name>, infos: seq<Option<Info>>) {
    |infos| <= |names| && forall i :: 0 <= i < |infos| ==> InfoTrue(plc, names[i], infos[i])
  }

  lemma InfosUnfold(symbols: seq<Name>, ads: Ads, before: nat, k: nat)
    requires before + 1 == k <= ChunkCount(|symbols|)
    ensures InfosUpTo(symbols, ads, k)
            == InfosUpTo(symbols, ads, before) + InfosOf(symbols, ads, before)
  {
    assert k - 1 == before;
  }

  ghost predicate InfosTrueUpTo(plc: Plc, symbols: seq<Name>, ads: Ads, k: nat)
    requires k <= ChunkCount(|symbols|)
  {
    InfosTrue(plc, symbols, InfosUpTo(symbols, ads, k))
  }

  lemma InfosJoin(plc: Plc, symbols: seq<Name>, k: nat, before: seq<Option<Info>>, more: seq<Option<Info>>)
    requires k < ChunkCount(|symbols|) && |before| == ChunkStart(|symbols|, k) && |more| == |ChunkOf(symbols, k)|
    requires InfosTrue(plc, symbols, before) && InfosTrue(plc, ChunkOf(symbols, k), more)
    ensures InfosTrue(plc, symbols, before + more)
  {
    ChunkJoins(symbols, k, before, more, (name, info) => InfoTrue(plc, name, info));
  }

  lemma InfosStep(plc: Plc, symbols: seq<Name>, ads: Ads, before: nat, k: nat)
    requires before + 1 == k <= ChunkCount(|symbols|) && InfoCallsDescribe(plc, symbols, ads)
    requires InfosTrueUpTo(plc, symbols, ads, before)
    ensures InfosTrueUpTo(plc, symbols, ads, k)
  {
    assert InfoChunkDescribes(plc, symbols, ads, before);
    var names := ChunkOf(symbols, before);
    ChunkInfosDescribe(plc, names, InfoCall(ads, names));
    InfosUnfold(symbols, ads, before, k);
    InfosJoin(plc, symbols, before, InfosUpTo(symbols, ads, before), ChunkInfos(|names|, InfoCall(ads, names)));
  }

  lemma NoInfosYet(plc: Plc, symbols: seq<Name>, ads: Ads, k: nat)
    requires k == 0
    ensures InfosTrueUpTo(plc, symbols, ads, k)
  {
  }

  lemma {:induction false} InfosDescribe(plc: Plc, symbols: seq<Name>, ads: Ads, k: nat)
    requires k <= ChunkCount(|symbols|) && InfoCallsDescribe(plc, symbols, ads)
    ensures InfosTrueUpTo(plc, symbols, ads, k)
    decreases k
  {
    if k == 0 {
      NoInfosYet(plc, symbols, ads, k);
    } else {
      var before: nat := k - 1;
      InfosDescribe(plc, symbols, ads, before);
      InfosStep(plc, symbols, ads, before, k);
    }
  }

  lemma ChunkInfosDescribe(plc: Plc, names: seq<Name>, call: CallResult)
    requires InfoCallDescribes(plc, names, call)
    ensures InfosTrue(plc, names, ChunkInfos(|names|, call))
  {
    if call.Replied? {
      var slots :| Describes(plc, names, slots) && Compact(slots) && EncodeReply(slots) <= call.data;
      var buf := ReadBuf(call, InfoReadSize(|names|));
      forall i | 0 <= i < |names| ensures InfoTrue(plc, names[i], SlotInfo(|names|, buf, i)) {
        SlotDescribesSymbol(plc, names, slots, buf, i);
      }
    }
  }

  /** A slot of one word is read back where the driver looks for it. */
  lemma WordSlotRead(denotes: u32 -> Key, keys: seq<Key>, slots: seq<SlotReply>, buf: seq<byte>, i: nat)
    requires WordSlots(denotes, keys, slots) && EncodeReply(slots) <= buf && i < |slots|
    ensures HandleTrue(denotes, keys[i], SlotHandle(|slots|, buf, i))
  {
    assert WordSlot(denotes, keys[i], slots[i]);
    WordsUniform(denotes, keys, slots, i);
    var h := DecodeU32(slots[i].payload);
    EncodeDecodeU32(slots[i].payload);
    WordSlotFound(slots, buf, i, h);
  }

  lemma WordsUniform(denotes: u32 -> Key, keys: seq<Key>, slots: seq<SlotReply>, i: nat)
    requires WordSlots(denotes, keys, slots) && i <= |slots|
    ensures Offset(Payloads(slots), i) == 4 * i
  {
    forall j | 0 <= j < |slots| ensures |Payloads(slots)[j]| == 4 {
      assert WordSlot(denotes, keys[j], slots[j]);
    }
    UniformOffset(Payloads(slots), 4, i);
  }

  lemma ChunkHandlesDenote(denotes: u32 -> Key, keys: seq<Key>, call: CallResult)
    requires HandleCallDenotes(denotes, keys, call)
    ensures HandlesTrue(denotes, keys, ChunkHandles(|keys|, call))
  {
    if call.Replied? {
      var slots :| WordSlots(denotes, keys, slots) && EncodeReply(slots) <= call.data;
      var buf := ReadBuf(call, HandleReadSize(|keys|));
      forall i | 0 <= i < |keys| ensures HandleTrue(denotes, keys[i], SlotHandle(|keys|, buf, i)) {
        WordSlotRead(denotes, keys, slots, buf, i);
      }
    }
  }

  predicate HandleTrue(denotes: u32 -> Key, key: Key, handle: Option<u32>) {
    handle.Some? ==> denotes(handle.value) == key
  }

  ghost predicate HandlesTrue(denotes: u32 -> Key, keys: seq<Key>, handles: seq<Option<u32>>) {
    |handles| <= |keys| && forall i :: 0 <= i < |handles| ==> HandleTrue(denotes, keys[i], handles[i])
  }

  ghost predicate HandlesTrueUpTo(denotes: u32 -> Key, d: map<Key, DictEntry>, order: seq<Key>, ads: Ads, k: nat)
    requires k <= ChunkCount(|order|)
  {
    HandlesTrue(denotes, order, HandlesUpTo(d, order, ads, k))
  }

  lemma HandlesNext(d: map<Key, DictEntry>, order: seq<Key>, ads: Ads, before: nat)
    requires before < ChunkCount(|order|)
    ensures HandlesUpTo(d, order, ads, before + 1)
            == HandlesUpTo(d, order, ads, before) + HandlesOf(d, order, ads, before)
  {
  }

  lemma HandlesUnfold(d: map<Key, DictEntry>, order: seq<Key>, ads: Ads, before: nat, k: nat)
    requires before + 1 == k <= ChunkCount(|order|)
    ensures HandlesUpTo(d, order, ads, k)
            == HandlesUpTo(d, order, ads, before) + HandlesOf(d, order, ads, before)
  {
    HandlesNext(d, order, ads, before);
  }

  lemma HandlesJoin(denotes: u32 -> Key, order: seq<Key>, k: nat, before: seq<Option<u32>>, more: seq<Option<u32>>)
    requires k < ChunkCount(|order|) && |before| == ChunkStart(|order|, k) && |more| == |ChunkOf(order, k)|
    requires HandlesTrue(denotes, order, before) && HandlesTrue(denotes, ChunkOf(order, k), more)
    ensures HandlesTrue(denotes, order, before + more)
  {
    ChunkJoins(order, k, before, more, (key, handle) => HandleTrue(denotes, key, handle));
  }

  lemma HandlesStep(denotes: u32 -> Key, d: map<Key, DictEntry>, order: seq<Key>, ads: Ads, before: nat, k: nat)
    requires before + 1 == k <= ChunkCount(|order|) && HandleCallsDenote(denotes, d, order, ads)
    requires HandlesTrueUpTo(denotes, d, order, ads, before)
    ensures HandlesTrueUpTo(denotes, d, order, ads, k)
  {
    assert HandleChunkDenotes(denotes, d, order, ads, before);
    var keys := ChunkOf(order, before);
    ChunkHandlesDenote(denotes, keys, HandleCall(ads, SymbolsOf(d, keys)));
    HandlesUnfold(d, order, ads, before, k);
    HandlesJoin(denotes, order, before, HandlesUpTo(d, order, ads, before),
                ChunkHandles(|keys|, HandleCall(ads, SymbolsOf(d, keys))));
  }

  lemma NoHandlesYet(denotes: u32 -> Key, d: map<Key, DictEntry>, order: seq<Key>, ads: Ads, k: nat)
    requires k == 0
    ensures HandlesTrueUpTo(denotes, d, order, ads, k)
  {
  }

  lemma {:induction false} HandlesDenote(denotes: u32 -> Key, d: map<Key, DictEntry>, order: seq<Key>, ads: Ads, k: nat)
    requires k <= ChunkCount(|order|) && HandleCallsDenote(denotes, d, order, ads)
    ensures HandlesTrueUpTo(denotes, d, order, ads, k)
    decreases k
  {
    if k == 0 {
      NoHandlesYet(denotes, d, order, ads, k);
    } else {
      var before: nat := k - 1;
      HandlesDenote(denotes, d, order, ads, before);
      HandlesStep(denotes, d, order, ads, before, k);
    }
  }

  /** The dictionary after the first pass, and after both. */
  function Described(symbols: seq<Name>, ads: Ads): map<Key, DictEntry> {
    var unique := Dedup(symbols);
    Gathered(unique, InfosUpTo(unique, ads, ChunkCount(|unique|)))
  }

  function Dictionary(symbols: seq<Name>, ads: Ads, order: seq<Key>): map<Key, DictEntry> {
    var d := Described(symbols, ads);
    WithHandles(d, order, HandlesUpTo(d, order, ads, ChunkCount(|order|)))
  }

  /** For a fixed symbol table, whatever the letter case of the name asked for:
      a hit has the size and type of the PLC's symbol and a handle that denotes
      it, and that is what the slow path gives too, exactly when the symbol's
      full name is short enough for the slow path to accept. */
  lemma CacheAgreesWithSlowPath(plc: Plc, denotes: u32 -> Key, symbols: seq<Name>, ads: Ads, order: seq<Key>, name: Name)
    requires InfoCallsDescribe(plc, Dedup(symbols), ads)
    requires HandleCallsDenote(denotes, Described(symbols, ads), order, ads)
    requires NoRepeats(order)
    requires Hit(Dictionary(symbols, ads, order), name)
    ensures var e := Found(Dictionary(symbols, ads, order), name).value; var key := denotes(e.handle);
            && SameName(name, key) && key in plc.table
            && e.size == plc.table[key].size && e.adst == plc.table[key].dataType
            && SlowInfo(plc, name) == (if |plc.table[key].name| < 767 then Some(Info(e.size, e.adst)) else None)
            && (forall other: Name :: SameName(name, other) ==> Found(Dictionary(symbols, ads, order), other) == Some(e))
  {
    KeyIsSpelling(name);
    forall other: Name | SameName(name, other)
      ensures Found(Dictionary(symbols, ads, order), other) == Found(Dictionary(symbols, ads, order), name)
    {
      SpellingsFindSame(Dictionary(symbols, ads, order), name, other);
    }
    HitWasDescribed(symbols, ads, order, Lower(name));
    DescribedIsTrue(plc, symbols, ads, Lower(name));
    DictionaryDenotes(symbols, ads, denotes, order, Lower(name));
    var r := plc.table[Lower(name)];
    if |r.name| < NAME_LIMIT {
      PackedWordsFound(r, Copied(|Packed(r)|));
    }
  }

  /** Before the handles are asked for, every entry describes the PLC's symbol and is unresolved. */
  lemma DescribedIsTrue(plc: Plc, symbols: seq<Name>, ads: Ads, key: Key)
    requires InfoCallsDescribe(plc, Dedup(symbols), ads) && key in Described(symbols, ads)
    ensures var e := Described(symbols, ads)[key];
            key in plc.table && Info(e.size, e.adst) == InfoOf(plc.table[key]) && !e.resolved
  {
    var unique := Dedup(symbols);
    var infos := InfosUpTo(unique, ads, ChunkCount(|unique|));
    DedupIsDistinct(symbols);
    InfosDescribe(plc, unique, ads, ChunkCount(|unique|));
    GatheredOnly(unique, infos, key);
    var i: nat :| MadeBy(unique, infos, key, i);
    GatheredEntry(unique, infos, i);
    assert InfoTrue(plc, unique[i], infos[i]);
  }

  /** Size and type are those from before the handles, and a resolved handle denotes the key. */
  ghost predicate EntryDenotes(before: DictEntry, r: map<Key, DictEntry>, denotes: u32 -> Key, key: Key) {
    key in r && r[key].size == before.size && r[key].adst == before.adst
    && (r[key].resolved ==> denotes(r[key].handle) == key)
  }

  lemma HandlesFilledTrue(d: map<Key, DictEntry>, denotes: u32 -> Key, order: seq<Key>, handles: seq<Option<u32>>, key: Key)
    requires key in d && !d[key].resolved && NoRepeats(order) && |handles| == |order|
    requires HandlesTrue(denotes, order, handles)
    ensures EntryDenotes(d[key], WithHandles(d, order, handles), denotes, key)
  {
    WithHandlesExactly(d, order, handles, key);
    if j :| 0 <= j < |order| && order[j] == key {
      assert HandleTrue(denotes, order[j], handles[j]);
    }
  }

  lemma DictionaryDenotes(symbols: seq<Name>, ads: Ads, denotes: u32 -> Key, order: seq<Key>, key: Key)
    requires HandleCallsDenote(denotes, Described(symbols, ads), order, ads) && NoRepeats(order)
    requires key in Described(symbols, ads) && !Described(symbols, ads)[key].resolved
    ensures EntryDenotes(Described(symbols, ads)[key], Dictionary(symbols, ads, order), denotes, key)
  {
    var d := Described(symbols, ads);
    HandlesDenote(denotes, d, order, ads, ChunkCount(|order|));
    HandlesFilledTrue(d, denotes, order, HandlesUpTo(d, order, ads, ChunkCount(|order|)), key);
  }

  /** The handle pass adds no entry. */
  lemma {:induction false} NoNewEntry(d: map<Key, DictEntry>, order: seq<Key>, handles: seq<Option<u32>>, key: Key)
    requires |handles| <= |order| && key in WithHandles(d, order, handles)
    ensures key in d
    decreases |handles|
  {
    if handles != [] {
      NoNewEntry(d, order, handles[..|handles| - 1], key);
    }
  }

  lemma HitWasDescribed(symbols: seq<Name>, ads: Ads, order: seq<Key>, key: Key)
    requires key in Dictionary(symbols, ads, order)
    ensures key in Described(symbols, ads)
  {
    var d := Described(symbols, ads);
    NoNewEntry(d, order, HandlesUpTo(d, order, ads, ChunkCount(|order|)), key);
  }

  // ----- the server meets the hypotheses -----

  /** The server's answer to a description request for symbols it all knows. */
  lemma ServerDescribes(plc: Plc, names: seq<Name>)
    requires forall i :: 0 <= i < |names| ==> Lower(names[i]) in plc.table
    ensures var slots := Answers(plc, ParseSum(|names|, EncodeSum(InfoRequests(names))));
            Describes(plc, names, slots) && Compact(slots)
  {
    var reqs := InfoRequests(names);
    ParseInvertsEncode(reqs);
    forall i | 0 <= i < |names|
      ensures AnswerSub(plc, reqs[i])
              == SlotReply(0, |Packed(plc.table[Lower(names[i])])|, Packed(plc.table[Lower(names[i])]))
    {
    }
  }

  /** A slot that holds one word is read back where its status pair and its word are. */
  lemma WordSlotFound(slots: seq<SlotReply>, buf: seq<byte>, i: nat, h: u32)
    requires i < |slots| && EncodeReply(slots) <= buf
    requires Offset(Payloads(slots), i) == 4 * i && slots[i].payload == EncodeU32(h)
    ensures SlotHandle(|slots|, buf, i) == if slots[i].result == 0 && h != 0 then Some(h) else None
  {
    StatusPairAt(slots, buf, i);
    PayloadAt(slots, buf, i);
    WordFound(buf, 8 * |slots| + 4 * i, h);
  }

  lemma HandleAnswer(plc: Plc, name: Name)
    ensures var a := AnswerSub(plc, SubRequest(SYM_HNDBYNAME, 0, 4, name));
            var key := Lower(StripZeros(name));
            && a.payload == EncodeU32(if key in plc.handles then plc.handles[key] else 0)
            && (a.result == 0 <==> key in plc.handles)
  {
    assert Zeros(4) == EncodeU32(0);
  }

  lemma HandleSlotsUniform(plc: Plc, names: seq<Name>, i: nat)
    requires i <= |names|
    ensures Offset(Payloads(Answers(plc, HandleRequests(names))), i) == 4 * i
  {
    var slots := Answers(plc, HandleRequests(names));
    forall j | 0 <= j < |names| ensures |Payloads(slots)[j]| == 4 {
      HandleAnswer(plc, names[j]);
    }
    UniformOffset(Payloads(slots), 4, i);
  }

  /** Whatever symbols it knows, the server's handle slots all have one width,
      so each is read back where the driver looks for it. */
  lemma ServerHandleFound(plc: Plc, names: seq<Name>, buf: seq<byte>, i: nat)
    requires i < |names|
    requires EncodeReply(Answers(plc, ParseSum(|names|, EncodeSum(HandleRequests(names))))) <= buf
    ensures var key := Lower(StripZeros(names[i]));
            SlotHandle(|names|, buf, i)
            == if key in plc.handles && plc.handles[key] != 0 then Some(plc.handles[key]) else None
  {
    ParseInvertsEncode(HandleRequests(names));
    HandleSlotsUniform(plc, names, i);
    HandleAnswer(plc, names[i]);
    var key := Lower(StripZeros(names[i]));
    WordSlotFound(Answers(plc, HandleRequests(names)), buf, i, if key in plc.handles then plc.handles[key] else 0);
  }
}
