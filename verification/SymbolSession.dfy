/** Driver and server together: what the dictionary holds after both passes
    were answered by the server itself. */
module SymbolSession {
  import opened Bytes
  import opened SumRequest
  import opened SymbolServer
  import opened SymbolModel
  import opened SymbolResolver

  /** The server's answer, taken apart and put together as its handler does. */
  function ServerAds(plc: Plc): Ads {
    (n: nat, writeData: seq<byte>) =>
      var reply := EncodeReply(Answers(plc, ParseSum(n, writeData)));
      Replied(|reply|, reply)
  }

  /** The server knows the symbol, and its description fits an entry. */
  predicate Known(plc: Plc, name: Name) {
    Lower(name) in plc.table && |Packed(plc.table[Lower(name)])| <= ENTRY_SIZE
  }

  ghost predicate AllKnown(plc: Plc, names: seq<Name>) {
    forall i :: 0 <= i < |names| ==> Known(plc, names[i])
  }

  lemma {:induction false} ConcatAtMost(parts: seq<seq<byte>>)
    requires forall i :: 0 <= i < |parts| ==> |parts[i]| <= ENTRY_SIZE
    ensures |Concat(parts)| <= ENTRY_SIZE * |parts|
  {
    if parts != [] {
      ConcatAtMost(parts[..|parts| - 1]);
    }
  }

  lemma StatusLength(slots: seq<SlotReply>)
    ensures |Concat(StatusPairs(slots))| == 8 * |slots|
  {
    UniformOffset(StatusPairs(slots), 8, |slots|);
    assert StatusPairs(slots)[..|slots|] == StatusPairs(slots);
  }

  // ----- descriptions -----

  function InfoSlots(plc: Plc, names: seq<Name>): (r: seq<SlotReply>)
    ensures |r| == |names|
  {
    Answers(plc, InfoRequests(names))
  }

  lemma InfoSlotAt(plc: Plc, names: seq<Name>, i: nat)
    requires i < |names| && Known(plc, names[i])
    ensures var packed := Packed(plc.table[Lower(names[i])]);
            InfoSlots(plc, names)[i] == SlotReply(0, |packed|, packed) && |packed| <= ENTRY_SIZE
  {
    assert InfoRequests(names)[i] == SubRequest(SYM_INFOBYNAMEEX, 0, ENTRY_SIZE, names[i]);
  }

  lemma InfoReply(plc: Plc, names: seq<Name>)
    requires AllKnown(plc, names)
    ensures var reply := EncodeReply(InfoSlots(plc, names));
            && InfoCall(ServerAds(plc), names) == Replied(|reply|, reply)
            && |reply| <= InfoReadSize(|names|)
            && Describes(plc, names, InfoSlots(plc, names)) && Compact(InfoSlots(plc, names))
  {
    ParseInvertsEncode(InfoRequests(names));
    ServerDescribes(plc, names);
    var slots := InfoSlots(plc, names);
    forall i | 0 <= i < |names| ensures |Payloads(slots)[i]| <= ENTRY_SIZE {
      InfoSlotAt(plc, names, i);
    }
    ConcatAtMost(Payloads(slots));
    StatusLength(slots);
  }

  /** What the driver makes of the symbol's description: nothing if it is shorter than its fixed part. */
  function Expected(plc: Plc, name: Name): Option<Info>
    requires Lower(name) in plc.table
  {
    var r := plc.table[Lower(name)];
    if |Packed(r)| < MIN_ENTRY then None else Some(InfoOf(r))
  }

  lemma SlotAsExpected(plc: Plc, names: seq<Name>, buf: seq<byte>, i: nat)
    requires AllKnown(plc, names) && i < |names| && EncodeReply(InfoSlots(plc, names)) <= buf
    ensures SlotInfo(|names|, buf, i) == Expected(plc, names[i])
  {
    InfoReply(plc, names);
    InfoSlotAt(plc, names, i);
    StatusPairAt(InfoSlots(plc, names), buf, i);
    SlotDescribesSymbol(plc, names, InfoSlots(plc, names), buf, i);
  }

  ghost predicate InfosAsExpected(plc: Plc, names: seq<Name>, infos: seq<Option<Info>>) {
    |infos| <= |names| && forall i :: 0 <= i < |infos| ==> InfoAsExpected(plc, names[i], infos[i])
  }

  predicate InfoAsExpected(plc: Plc, name: Name, info: Option<Info>) {
    Lower(name) in plc.table && info == Expected(plc, name)
  }

  lemma ChunkKnown(plc: Plc, symbols: seq<Name>, k: nat)
    requires AllKnown(plc, symbols) && k < ChunkCount(|symbols|)
    ensures AllKnown(plc, ChunkOf(symbols, k))
  {
    forall i | 0 <= i < |ChunkOf(symbols, k)| ensures Known(plc, ChunkOf(symbols, k)[i]) {
      ChunkElement(symbols, k, i);
    }
  }

  lemma ChunkInfosExpected(plc: Plc, names: seq<Name>)
    requires AllKnown(plc, names)
    ensures InfosAsExpected(plc, names, ChunkInfos(|names|, InfoCall(ServerAds(plc), names)))
  {
    InfoReply(plc, names);
    var call := InfoCall(ServerAds(plc), names);
    var buf := ReadBuf(call, InfoReadSize(|names|));
    forall i | 0 <= i < |names| ensures InfoAsExpected(plc, names[i], SlotInfo(|names|, buf, i)) {
      assert Known(plc, names[i]);
      SlotAsExpected(plc, names, buf, i);
    }
  }

  ghost predicate ExpectedUpTo(plc: Plc, symbols: seq<Name>, k: nat)
    requires k <= ChunkCount(|symbols|)
  {
    InfosAsExpected(plc, symbols, InfosUpTo(symbols, ServerAds(plc), k))
  }

  lemma ExpectedJoin(plc: Plc, symbols: seq<Name>, k: nat, before: seq<Option<Info>>, more: seq<Option<Info>>)
    requires k < ChunkCount(|symbols|) && |before| == ChunkStart(|symbols|, k) && |more| == |ChunkOf(symbols, k)|
    requires InfosAsExpected(plc, symbols, before) && InfosAsExpected(plc, ChunkOf(symbols, k), more)
    ensures InfosAsExpected(plc, symbols, before + more)
  {
    ChunkJoins(symbols, k, before, more, (name, info) => InfoAsExpected(plc, name, info));
  }

  lemma ExpectedStep(plc: Plc, symbols: seq<Name>, before: nat, k: nat)
    requires before + 1 == k <= ChunkCount(|symbols|) && AllKnown(plc, symbols) && ExpectedUpTo(plc, symbols, before)
    ensures ExpectedUpTo(plc, symbols, k)
  {
    var names := ChunkOf(symbols, before);
    ChunkKnown(plc, symbols, before);
    ChunkInfosExpected(plc, names);
    InfosUnfold(symbols, ServerAds(plc), before, k);
    ExpectedJoin(plc, symbols, before, InfosUpTo(symbols, ServerAds(plc), before),
                 ChunkInfos(|names|, InfoCall(ServerAds(plc), names)));
  }

  lemma NothingExpected(plc: Plc, symbols: seq<Name>, k: nat)
    requires k == 0
    ensures ExpectedUpTo(plc, symbols, k)
  {
  }

  lemma {:induction false} EveryInfoExpected(plc: Plc, symbols: seq<Name>, k: nat)
    requires k <= ChunkCount(|symbols|) && AllKnown(plc, symbols)
    ensures ExpectedUpTo(plc, symbols, k)
    decreases k
  {
    if k == 0 {
      NothingExpected(plc, symbols, k);
    } else {
      var before: nat := k - 1;
      EveryInfoExpected(plc, symbols, before);
      ExpectedStep(plc, symbols, before, k);
    }
  }

  ghost predicate EntryExpected(plc: Plc, unique: seq<Name>, e: DictEntry, key: Key)
    requires key in plc.table
  {
    && Info(e.size, e.adst) == InfoOf(plc.table[key]) && !e.resolved
    && e.symbol in unique && Lower(e.symbol) == key
  }

  lemma EntryMade(plc: Plc, unique: seq<Name>, infos: seq<Option<Info>>, i: nat)
    requires Distinct(unique) && InfosAsExpected(plc, unique, infos) && i < |infos|
    requires infos[i].Some?
    ensures var key := Lower(unique[i]); var d := Gathered(unique, infos);
            && key in d && key in plc.table && |Packed(plc.table[key])| >= MIN_ENTRY
            && EntryExpected(plc, unique, d[key], key)
  {
    GatheredEntry(unique, infos, i);
    assert InfoAsExpected(plc, unique[i], infos[i]);
  }

  lemma GatheredExactly(plc: Plc, unique: seq<Name>, infos: seq<Option<Info>>, key: Key)
    requires Distinct(unique) && |infos| == |unique| && InfosAsExpected(plc, unique, infos)
    ensures var d := Gathered(unique, infos);
            && (key in d <==> key in LowerKeys(unique) && key in plc.table && |Packed(plc.table[key])| >= MIN_ENTRY)
            && (key in d ==> EntryExpected(plc, unique, d[key], key))
  {
    if key in Gathered(unique, infos) {
      GatheredOnly(unique, infos, key);
      var i: nat :| MadeBy(unique, infos, key, i);
      EntryMade(plc, unique, infos, i);
    } else if key in LowerKeys(unique) {
      var i :| 0 <= i < |unique| && Lower(unique[i]) == key;
      assert InfoAsExpected(plc, unique[i], infos[i]);
      if infos[i].Some? {
        EntryMade(plc, unique, infos, i);
      }
    }
  }

  /** After the first pass the dictionary has exactly the keys of the symbols
      whose description is long enough, each with the table's size and type. */
  lemma DescribedExactly(plc: Plc, symbols: seq<Name>, key: Key)
    requires AllKnown(plc, Dedup(symbols))
    ensures var d := Described(symbols, ServerAds(plc));
            && (key in d <==> key in LowerKeys(symbols) && key in plc.table && |Packed(plc.table[key])| >= MIN_ENTRY)
            && (key in d ==> EntryExpected(plc, Dedup(symbols), d[key], key))
  {
    var unique := Dedup(symbols);
    var n := ChunkCount(|unique|);
    DedupIsDistinct(symbols);
    EveryInfoExpected(plc, unique, n);
    GatheredExactly(plc, unique, InfosUpTo(unique, ServerAds(plc), n), key);
  }

  lemma ChunkServed(plc: Plc, symbols: seq<Name>, k: nat)
    requires AllKnown(plc, symbols) && k < ChunkCount(|symbols|)
    ensures ChunkWithin(symbols, ServerAds(plc), k) && ChunkFits(symbols, ServerAds(plc), k)
  {
    var names := ChunkOf(symbols, k);
    ChunkKnown(plc, symbols, k);
    InfoReply(plc, names);
    var buf := ReadBuf(InfoCall(ServerAds(plc), names), InfoReadSize(|names|));
    forall i | 0 <= i < |names| ensures RetLenAt(buf, i) <= ENTRY_SIZE {
      InfoSlotAt(plc, names, i);
      StatusPairAt(InfoSlots(plc, names), buf, i);
    }
  }

  /** The server keeps to what the first pass relies on. */
  lemma ServerServes(plc: Plc, symbols: seq<Name>)
    requires AllKnown(plc, symbols)
    ensures AllWithin(symbols, ServerAds(plc)) && AllFit(symbols, ServerAds(plc), ChunkCount(|symbols|))
  {
    forall k | 0 <= k < ChunkCount(|symbols|)
      ensures ChunkWithin(symbols, ServerAds(plc), k) && ChunkFits(symbols, ServerAds(plc), k)
    {
      ChunkServed(plc, symbols, k);
    }
  }

  // ----- handles -----

  /** A name as C strings have it: not ending in a NUL. */
  predicate Plain(name: Name) {
    name == [] || name[|name| - 1] != 0
  }

  function ExpectedHandle(plc: Plc, key: Key): Option<u32> {
    if key in plc.handles && plc.handles[key] != 0 then Some(plc.handles[key]) else None
  }

  function HandleSlots(plc: Plc, names: seq<Name>): (r: seq<SlotReply>)
    ensures |r| == |names|
  {
    Answers(plc, HandleRequests(names))
  }

  lemma HandleReply(plc: Plc, names: seq<Name>)
    ensures var reply := EncodeReply(HandleSlots(plc, names));
            HandleCall(ServerAds(plc), names) == Replied(|reply|, reply) && |reply| == HandleReadSize(|names|)
  {
    ParseInvertsEncode(HandleRequests(names));
    var slots := HandleSlots(plc, names);
    HandleSlotsUniform(plc, names, |names|);
    assert Payloads(slots)[..|names|] == Payloads(slots);
    StatusLength(slots);
  }

  lemma ChunkHandlesExpected(plc: Plc, names: seq<Name>, i: nat)
    requires i < |names| && Plain(names[i])
    ensures ChunkHandles(|names|, HandleCall(ServerAds(plc), names))[i] == ExpectedHandle(plc, Lower(names[i]))
  {
    HandleReply(plc, names);
    ParseInvertsEncode(HandleRequests(names));
    var buf := ReadBuf(HandleCall(ServerAds(plc), names), HandleReadSize(|names|));
    ServerHandleFound(plc, names, buf, i);
  }

  /** Every key is that of the spelling kept with it. */
  ghost predicate Keyed(d: map<Key, DictEntry>, order: seq<Key>) {
    forall i :: 0 <= i < |order| ==> KeyedAt(d, order[i])
  }

  ghost predicate KeyedAt(d: map<Key, DictEntry>, key: Key) {
    key in d && Lower(d[key].symbol) == key && Plain(d[key].symbol)
  }

  ghost predicate HandlesAsExpected(plc: Plc, keys: seq<Key>, handles: seq<Option<u32>>) {
    |handles| <= |keys| && forall i :: 0 <= i < |handles| ==> HandleAsExpected(plc, keys[i], handles[i])
  }

  predicate HandleAsExpected(plc: Plc, key: Key, handle: Option<u32>) {
    handle == ExpectedHandle(plc, key)
  }

  lemma KeysServed(plc: Plc, d: map<Key, DictEntry>, keys: seq<Key>)
    requires Keyed(d, keys)
    ensures HandlesAsExpected(plc, keys, ChunkHandles(|keys|, HandleCall(ServerAds(plc), SymbolsOf(d, keys))))
  {
    var names := SymbolsOf(d, keys);
    var handles := ChunkHandles(|keys|, HandleCall(ServerAds(plc), names));
    forall i | 0 <= i < |keys| ensures HandleAsExpected(plc, keys[i], handles[i]) {
      assert KeyedAt(d, keys[i]);
      ChunkHandlesExpected(plc, names, i);
    }
  }

  lemma ChunkKeyed(d: map<Key, DictEntry>, order: seq<Key>, k: nat)
    requires Keyed(d, order) && k < ChunkCount(|order|)
    ensures Keyed(d, ChunkOf(order, k))
  {
    forall i | 0 <= i < |ChunkOf(order, k)| ensures KeyedAt(d, ChunkOf(order, k)[i]) {
      ChunkElement(order, k, i);
    }
  }

  lemma HandlesExpectedJoin(plc: Plc, order: seq<Key>, k: nat, before: seq<Option<u32>>, more: seq<Option<u32>>)
    requires k < ChunkCount(|order|) && |before| == ChunkStart(|order|, k) && |more| == |ChunkOf(order, k)|
    requires HandlesAsExpected(plc, order, before) && HandlesAsExpected(plc, ChunkOf(order, k), more)
    ensures HandlesAsExpected(plc, order, before + more)
  {
    ChunkJoins(order, k, before, more, (key, handle) => HandleAsExpected(plc, key, handle));
  }

  ghost predicate HandlesExpectedUpTo(plc: Plc, d: map<Key, DictEntry>, order: seq<Key>, k: nat)
    requires k <= ChunkCount(|order|)
  {
    HandlesAsExpected(plc, order, HandlesUpTo(d, order, ServerAds(plc), k))
  }

  lemma HandlesExpectedStep(plc: Plc, d: map<Key, DictEntry>, order: seq<Key>, before: nat, k: nat)
    requires before + 1 == k <= ChunkCount(|order|) && Keyed(d, order) && HandlesExpectedUpTo(plc, d, order, before)
    ensures HandlesExpectedUpTo(plc, d, order, k)
  {
    var keys := ChunkOf(order, before);
    ChunkKeyed(d, order, before);
    KeysServed(plc, d, keys);
    HandlesUnfold(d, order, ServerAds(plc), before, k);
    HandlesExpectedJoin(plc, order, before, HandlesUpTo(d, order, ServerAds(plc), before),
                        ChunkHandles(|keys|, HandleCall(ServerAds(plc), SymbolsOf(d, keys))));
  }

  lemma NoHandleExpected(plc: Plc, d: map<Key, DictEntry>, order: seq<Key>, k: nat)
    requires k == 0
    ensures HandlesExpectedUpTo(plc, d, order, k)
  {
  }

  lemma {:induction false} EveryHandleExpected(plc: Plc, d: map<Key, DictEntry>, order: seq<Key>, k: nat)
    requires k <= ChunkCount(|order|) && Keyed(d, order)
    ensures HandlesExpectedUpTo(plc, d, order, k)
    decreases k
  {
    if k == 0 {
      NoHandleExpected(plc, d, order, k);
    } else {
      var before: nat := k - 1;
      EveryHandleExpected(plc, d, order, before);
      HandlesExpectedStep(plc, d, order, before, k);
    }
  }

  // ----- both passes -----

  /** `order` lists each key of the dictionary once. */
  ghost predicate Enumerates(order: seq<Key>, d: map<Key, DictEntry>) {
    NoRepeats(order) && AllIn(order, d) && forall key :: key in d ==> key in order
  }

  ghost predicate AllPlain(symbols: seq<Name>) {
    forall s :: s in symbols ==> Plain(s)
  }

  lemma DescribedKeyed(plc: Plc, symbols: seq<Name>, order: seq<Key>)
    requires AllKnown(plc, Dedup(symbols)) && AllPlain(Dedup(symbols))
    requires AllIn(order, Described(symbols, ServerAds(plc)))
    ensures Keyed(Described(symbols, ServerAds(plc)), order)
  {
    var d := Described(symbols, ServerAds(plc));
    forall i | 0 <= i < |order| ensures KeyedAt(d, order[i]) {
      DescribedExactly(plc, symbols, order[i]);
    }
  }

  lemma HandleFilledIn(plc: Plc, d: map<Key, DictEntry>, order: seq<Key>, handles: seq<Option<u32>>, key: Key)
    requires key in d && key in order && NoRepeats(order) && |handles| == |order| && HandlesAsExpected(plc, order, handles)
    ensures key in WithHandles(d, order, handles)
    ensures WithHandles(d, order, handles)[key] == Resolve(d[key], ExpectedHandle(plc, key))
  {
    WithHandlesExactly(d, order, handles, key);
    var i :| 0 <= i < |order| && order[i] == key;
    assert HandleAsExpected(plc, order[i], handles[i]);
  }

  lemma EntryAfterBoth(plc: Plc, symbols: seq<Name>, order: seq<Key>, key: Key)
    requires AllKnown(plc, Dedup(symbols)) && AllPlain(Dedup(symbols))
    requires Enumerates(order, Described(symbols, ServerAds(plc)))
    requires key in Described(symbols, ServerAds(plc))
    ensures var d := Described(symbols, ServerAds(plc)); var e := Dictionary(symbols, ServerAds(plc), order);
            key in e && e[key] == Resolve(d[key], ExpectedHandle(plc, key))
  {
    var d := Described(symbols, ServerAds(plc));
    DescribedKeyed(plc, symbols, order);
    EveryHandleExpected(plc, d, order, ChunkCount(|order|));
    HandleFilledIn(plc, d, order, HandlesUpTo(d, order, ServerAds(plc), ChunkCount(|order|)), key);
  }

  /** What makes a symbol usable from the dictionary: a description no shorter
      than its fixed part, a size, a type and a handle. */
  predicate Usable(plc: Plc, key: Key) {
    && key in plc.table && 30 + |plc.table[key].name| + 1 + |plc.table[key].typeName| + 1 + |plc.table[key].comment| >= 36
    && plc.table[key].size > 0 && plc.table[key].dataType != 0
    && key in plc.handles && plc.handles[key] != 0
  }

  /** After both passes, answered by the server, a name hits exactly when it is
      one of the symbols asked for, in whatever spelling, and the PLC has all of
      its data; and the hit is that data. */
  lemma SessionFillsDictionary(plc: Plc, symbols: seq<Name>, order: seq<Key>, name: Name)
    requires AllKnown(plc, Dedup(symbols)) && AllPlain(Dedup(symbols))
    requires Enumerates(order, Described(symbols, ServerAds(plc)))
    ensures var hit := Found(Dictionary(symbols, ServerAds(plc), order), name); var key := Lower(name);
            && SameName(name, key)
            && (hit.Some? <==> Asked(symbols, name) && Usable(plc, key))
            && (hit.Some? ==>
                  && hit.value.size == plc.table[key].size && hit.value.adst == plc.table[key].dataType
                  && hit.value.handle == plc.handles[key] && hit.value.resolved)
  {
    var key := Lower(name);
    KeyIsSpelling(name);
    KeyAskedIff(symbols, name);
    DescribedExactly(plc, symbols, key);
    if key in Described(symbols, ServerAds(plc)) {
      EntryAfterBoth(plc, symbols, order, key);
    } else if key in Dictionary(symbols, ServerAds(plc), order) {
      HitWasDescribed(symbols, ServerAds(plc), order, key);
    }
  }
}
