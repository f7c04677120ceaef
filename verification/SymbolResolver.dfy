/** The driver's symbol dictionary and the two batched passes that fill it. */
module SymbolResolver {
  import opened Bytes
  import opened SumRequest
  import opened SymbolServer
  import opened SymbolModel

  /** Every slot returned no more than the entry size it was given. */
  ghost predicate WithinEntries(n: nat, call: CallResult) {
    call.Replied? ==> forall i :: 0 <= i < n ==> RetLenAt(ReadBuf(call, InfoReadSize(n)), i) <= ENTRY_SIZE
  }

  /** The chunk's reply stays within the entries, and within the buffer. */
  ghost predicate ChunkWithin(symbols: seq<Name>, ads: Ads, k: nat)
    requires k < ChunkCount(|symbols|)
  {
    WithinEntries(|ChunkOf(symbols, k)|, InfoCall(ads, ChunkOf(symbols, k)))
  }

  predicate ChunkFits(symbols: seq<Name>, ads: Ads, k: nat)
    requires k < ChunkCount(|symbols|)
  {
    var call := InfoCall(ads, ChunkOf(symbols, k));
    call.Replied? ==> call.bytesRead <= 832 * |ChunkOf(symbols, k)|
  }

  lemma {:induction false} DataInside(n: nat, buf: seq<byte>, i: nat)
    requires |buf| == InfoReadSize(n) && i <= n
    requires forall j :: 0 <= j < n ==> RetLenAt(buf, j) <= ENTRY_SIZE
    ensures DataAt(n, buf, i) <= 8 * n + ENTRY_SIZE * i
    decreases i
  {
    if i > 0 {
      DataInside(n, buf, i - 1);
    }
  }

  lemma CountOkSnoc(infos: seq<Option<Info>>, x: Option<Info>)
    ensures CountOk(infos + [x]) == CountOk(infos) + if x.Some? then 1 else 0
  {
    assert (infos + [x])[..|infos|] == infos;
  }

  lemma GatheredSnoc(symbols: seq<Name>, infos: seq<Option<Info>>, x: Option<Info>)
    requires |infos| < |symbols|
    ensures Gathered(symbols, infos + [x])
            == match x
               case None => Gathered(symbols, infos)
               case Some(info) => Put(Gathered(symbols, infos), symbols[|infos|], info)
  {
    assert (infos + [x])[..|infos|] == infos;
  }

  lemma WithHandlesSnoc(d: map<Key, DictEntry>, order: seq<Key>, handles: seq<Option<u32>>, h: Option<u32>)
    requires |handles| < |order| && order[|handles|] in d
    ensures var before := WithHandles(d, order, handles);
            order[|handles|] in before
            && WithHandles(d, order, handles + [h])
               == before[order[|handles|] := Resolve(before[order[|handles|]], h)]
  {
    assert (handles + [h])[..|handles|] == handles;
    WithHandlesKeeps(d, order, handles, order[|handles|]);
    var before := WithHandles(d, order, handles);
    assert h.None? ==> before[order[|handles|] := before[order[|handles|]]] == before;
  }

  method Deduplicate(symbols: seq<Name>) returns (unique: seq<Name>)
    ensures unique == Dedup(symbols) && Distinct(unique)
    ensures forall i :: 0 <= i < |symbols| ==> Asked(unique, symbols[i])
  {
    var seen: set<Key> := {};
    unique := [];
    for i := 0 to |symbols|
      invariant unique == Dedup(symbols[..i]) && seen == LowerKeys(symbols[..i])
    {
      assert symbols[..i + 1][..i] == symbols[..i];
      KeysSnoc(symbols[..i], symbols[i]);
      assert symbols[..i] + [symbols[i]] == symbols[..i + 1];
      var sl := Lower(symbols[i]);
      if sl !in seen {
        seen := seen + {sl};
        unique := unique + [symbols[i]];
      }
    }
    assert symbols[..|symbols|] == symbols;
    DedupIsDistinct(symbols);
  }

  ghost predicate AllWithin(symbols: seq<Name>, ads: Ads) {
    forall k :: 0 <= k < ChunkCount(|symbols|) ==> ChunkWithin(symbols, ads, k)
  }

  ghost predicate AllFit(symbols: seq<Name>, ads: Ads, n: nat)
    requires n <= ChunkCount(|symbols|)
  {
    forall k :: 0 <= k < n ==> ChunkFits(symbols, ads, k)
  }

  /** Some reply claims more than was asked for. */
  ghost predicate Misfit(symbols: seq<Name>, ads: Ads) {
    !AllFit(symbols, ads, ChunkCount(|symbols|))
  }

  lemma WithinOne(symbols: seq<Name>, ads: Ads, k: nat)
    requires k < ChunkCount(|symbols|) && AllWithin(symbols, ads)
    ensures WithinEntries(|ChunkOf(symbols, k)|, InfoCall(ads, ChunkOf(symbols, k)))
  {
    assert ChunkWithin(symbols, ads, k);
  }

  lemma OneMoreFits(symbols: seq<Name>, ads: Ads, k: nat)
    requires k < ChunkCount(|symbols|) && AllFit(symbols, ads, k)
    ensures if ChunkFits(symbols, ads, k) then AllFit(symbols, ads, k + 1) else Misfit(symbols, ads)
  {
  }

  lemma EveryEntryOwn(symbols: seq<Name>, unique: seq<Name>, ads: Ads)
    requires unique == Dedup(symbols)
    ensures |Described(symbols, ads)| == CountOk(InfosUpTo(unique, ads, ChunkCount(|unique|)))
    ensures |InfosUpTo(unique, ads, ChunkCount(|unique|))| == |unique|
  {
    DedupIsDistinct(symbols);
    GatheredSize(unique, InfosUpTo(unique, ads, ChunkCount(|unique|)));
  }

  lemma SameSymbols(d: map<Key, DictEntry>, order: seq<Key>, handles: seq<Option<u32>>, keys: seq<Key>)
    requires |handles| <= |order| && AllIn(keys, d)
    ensures SymbolsOf(WithHandles(d, order, handles), keys) == SymbolsOf(d, keys)
  {
    forall i | 0 <= i < |keys|
      ensures SymbolsOf(WithHandles(d, order, handles), keys)[i] == SymbolsOf(d, keys)[i]
    {
      WithHandlesKeeps(d, order, handles, keys[i]);
    }
  }

  ghost predicate AllIn(order: seq<Key>, d: map<Key, DictEntry>) {
    forall i :: 0 <= i < |order| ==> order[i] in d
  }

  lemma InTheTable(order: seq<Key>, d: map<Key, DictEntry>, i: nat)
    requires i < |order| && AllIn(order, d)
    ensures order[i] in d
  {
  }

  /** `e` is `d` with the given handles filled in. */
  ghost predicate Filled(e: map<Key, DictEntry>, d: map<Key, DictEntry>, order: seq<Key>, handles: seq<Option<u32>>) {
    |handles| <= |order| && e == WithHandles(d, order, handles)
  }

  /** `e` is `d` with the first `k` chunks' handles filled in. */
  ghost predicate HandlesDone(e: map<Key, DictEntry>, d: map<Key, DictEntry>, order: seq<Key>, ads: Ads, k: nat) {
    k <= ChunkCount(|order|) && Filled(e, d, order, HandlesUpTo(d, order, ads, k))
  }

  lemma NoneYet<T>(xs: seq<T>, ys: seq<T>)
    ensures xs + ys[..0] == xs
  {
  }

  lemma JoinOne<T>(xs: seq<T>, ys: seq<T>, i: nat)
    requires i < |ys|
    ensures xs + ys[..i] + [ys[i]] == xs + ys[..i + 1]
  {
  }

  lemma AllTaken<T>(ys: seq<T>)
    ensures ys[..|ys|] == ys
  {
  }

  /** Where a chunk starts, how long it is, and what is in it. */
  method CutChunk<T>(xs: seq<T>, chunk: nat) returns (chunkStart: nat, chunkN: nat, part: seq<T>)
    requires chunk < ChunkCount(|xs|)
    ensures chunkStart == ChunkStart(|xs|, chunk) && part == ChunkOf(xs, chunk) && chunkN == |part|
    ensures chunkStart + chunkN <= |xs|
  {
    chunkStart := chunk * CHUNK_SIZE;
    var chunkEnd := if chunkStart + CHUNK_SIZE <= |xs| then chunkStart + CHUNK_SIZE else |xs|;
    chunkN := chunkEnd - chunkStart;
    part := xs[chunkStart..chunkEnd];
  }

  method CallForInfo(ads: Ads, names: seq<Name>) returns (call: CallResult)
    ensures call == InfoCall(ads, names)
  {
    var writeBuf := BuildWriteBuf(InfoRequests(names));
    call := ads(|names|, writeBuf[..]);
  }

  method CallForHandles(ads: Ads, names: seq<Name>) returns (call: CallResult)
    ensures call == HandleCall(ads, names)
  {
    var writeBuf := BuildWriteBuf(HandleRequests(names));
    call := ads(|names|, writeBuf[..]);
  }

  class SymbolDict {
    var dict: map<Key, DictEntry>
    var totalOK: nat
    var totalFail: nat

    constructor ()
      ensures dict == map[] && totalOK == 0 && totalFail == 0
    {
      dict, totalOK, totalFail := map[], 0, 0;
    }

    /** The totals count the outcomes so far, and the dictionary holds what they gathered. */
    ghost predicate Holds(symbols: seq<Name>, infos: seq<Option<Info>>)
      reads this
    {
      && |infos| <= |symbols|
      && dict == Gathered(symbols, infos)
      && totalOK == CountOk(infos) && totalOK + totalFail == |infos|
    }

    /** One slot of a reply: counted as a failure, or copied into the dictionary. */
    method TakeSlot(symbols: seq<Name>, ghost infos: seq<Option<Info>>, n: nat, i: nat, buf: seq<byte>, dataPtr: nat,
                    at: nat) returns (next: nat)
      requires Holds(symbols, infos) && |infos| == at < |symbols| && i < n && |buf| == InfoReadSize(n)
      requires dataPtr == DataAt(n, buf, i) && dataPtr + RetLenAt(buf, i) <= |buf|
      modifies this
      ensures next == DataAt(n, buf, i + 1)
      ensures Holds(symbols, infos + [SlotInfo(n, buf, i)])
    {
      var result, retLen := ResultAt(buf, i), RetLenAt(buf, i);
      GatheredSnoc(symbols, infos, SlotInfo(n, buf, i));
      CountOkSnoc(infos, SlotInfo(n, buf, i));
      next := dataPtr + retLen;
      if result != 0 || retLen < MIN_ENTRY {
        totalFail := totalFail + 1;
        return;
      }
      var info := EntryInfo(buf[dataPtr..dataPtr + Copied(retLen)]);
      var symLower := Lower(symbols[at]);
      var kept := if symLower in dict then dict[symLower].handle else 0;
      dict := dict[symLower := DictEntry(symbols[at], symLower, info.size, info.dataType, kept, false)];
      totalOK := totalOK + 1;
    }

    /** The walk over one chunk's reply. */
    method ParseReply(symbols: seq<Name>, ghost infos: seq<Option<Info>>, start: nat, n: nat, ghost call: CallResult,
                      buf: seq<byte>)
      requires Holds(symbols, infos) && |infos| == start && start + n <= |symbols|
      requires call.Replied? && WithinEntries(n, call) && buf == ReadBuf(call, InfoReadSize(n))
      modifies this
      ensures Holds(symbols, infos + ChunkInfos(n, call))
    {
      var dataPtr := 8 * n;
      var i := 0;
      assert infos + ChunkInfos(n, call)[..0] == infos;
      while i < n
        invariant 0 <= i <= n && dataPtr == DataAt(n, buf, i)
        invariant Holds(symbols, infos + ChunkInfos(n, call)[..i])
      {
        DataInside(n, buf, i);
        ghost var more := infos + ChunkInfos(n, call)[..i];
        dataPtr := TakeSlot(symbols, more, n, i, buf, dataPtr, start + i);
        assert more + [SlotInfo(n, buf, i)] == infos + ChunkInfos(n, call)[..i + 1];
        i := i + 1;
      }
      assert ChunkInfos(n, call)[..n] == ChunkInfos(n, call);
    }

    /** A chunk whose call failed: all of its symbols are failures. */
    method SkipChunk(symbols: seq<Name>, ghost infos: seq<Option<Info>>, n: nat)
      requires Holds(symbols, infos) && |infos| + n <= |symbols|
      modifies this
      ensures Holds(symbols, infos + ChunkInfos(n, Failed))
    {
      NothingGathered(symbols, infos, n);
      totalFail := totalFail + n;
    }

    /** One chunk of the first pass: make the call, take what it returned. */
    method ResolveInfoChunk(unique: seq<Name>, ads: Ads, chunk: nat) returns (fits: bool)
      requires chunk < ChunkCount(|unique|) && Holds(unique, InfosUpTo(unique, ads, chunk))
      requires WithinEntries(|ChunkOf(unique, chunk)|, InfoCall(ads, ChunkOf(unique, chunk)))
      modifies this
      ensures fits == !Overflows(|ChunkOf(unique, chunk)|, InfoCall(ads, ChunkOf(unique, chunk)))
      ensures fits ==> Holds(unique, InfosUpTo(unique, ads, chunk + 1))
    {
      var chunkStart, chunkN, names := CutChunk(unique, chunk);
      var call := CallForInfo(ads, names);
      InfosUnfold(unique, ads, chunk, chunk + 1);
      if call.Failed? {
        SkipChunk(unique, InfosUpTo(unique, ads, chunk), chunkN);
        return true;
      }
      if call.bytesRead > chunkN * 8 + chunkN * ENTRY_SIZE {
        return false;
      }
      ParseReply(unique, InfosUpTo(unique, ads, chunk), chunkStart, chunkN, call, ReadBuf(call, InfoReadSize(chunkN)));
      fits := true;
    }

    /** The first `k` chunks' outcomes are in, and all of them fitted. */
    ghost predicate InfosDone(symbols: seq<Name>, ads: Ads, k: nat)
      reads this
    {
      k <= ChunkCount(|symbols|) && Holds(symbols, InfosUpTo(symbols, ads, k)) && AllFit(symbols, ads, k)
    }

    method InfoStep(unique: seq<Name>, ads: Ads, chunk: nat) returns (fits: bool)
      requires chunk < ChunkCount(|unique|) && InfosDone(unique, ads, chunk) && AllWithin(unique, ads)
      modifies this
      ensures if fits then InfosDone(unique, ads, chunk + 1) else Misfit(unique, ads)
    {
      WithinOne(unique, ads, chunk);
      OneMoreFits(unique, ads, chunk);
      fits := ResolveInfoChunk(unique, ads, chunk);
    }

    method ResolveInfoChunks(unique: seq<Name>, ads: Ads, nChunks: nat) returns (ok: bool)
      requires nChunks == ChunkCount(|unique|) && AllWithin(unique, ads) && InfosDone(unique, ads, 0)
      modifies this
      ensures if ok then InfosDone(unique, ads, nChunks) else Misfit(unique, ads)
    {
      var chunk: nat := 0;
      while chunk < nChunks
        invariant chunk <= nChunks
        invariant InfosDone(unique, ads, chunk)
      {
        var fits := InfoStep(unique, ads, chunk);
        if !fits {
          return false;
        }
        chunk := chunk + 1;
      }
      assert chunk == nChunks;
      ok := true;
    }

    /** The first pass: it gives up exactly when a reply claims more than was asked for. */
    method ResolveSymbolInfo(symbols: seq<Name>, ads: Ads) returns (ok: bool)
      requires AllWithin(Dedup(symbols), ads)
      modifies this
      ensures ok <==> AllFit(Dedup(symbols), ads, ChunkCount(|Dedup(symbols)|))
      ensures ok ==> dict == Described(symbols, ads)
      ensures ok ==> totalOK == CountOk(InfosUpTo(Dedup(symbols), ads, ChunkCount(|Dedup(symbols)|)))
      ensures ok ==> totalOK + totalFail == |Dedup(symbols)| && |dict| == totalOK
    {
      dict, totalOK, totalFail := map[], 0, 0;
      var unique := Deduplicate(symbols);
      ok := ResolveInfoChunks(unique, ads, ChunkCount(|unique|));
      EveryEntryOwn(symbols, unique, ads);
    }

    /** One fixed-width slot: its handle, if the slot succeeded with one. */
    method TakeHandle(ghost d: map<Key, DictEntry>, order: seq<Key>, ghost handles: seq<Option<u32>>, at: nat, n: nat,
                      i: nat, buf: seq<byte>)
      requires Filled(dict, d, order, handles) && |handles| == at < |order| && order[at] in d
      modifies this`dict
      ensures Filled(dict, d, order, handles + [SlotHandle(n, buf, i)])
    {
      WithHandlesSnoc(d, order, handles, SlotHandle(n, buf, i));
      var key := order[at];
      var result, handle := ResultAt(buf, i), WordAt(buf, 8 * n + 4 * i);
      if result == 0 && handle != 0 {
        dict := dict[key := dict[key].(handle := handle, resolved := true)];
      } else {
        assert dict[key := dict[key]] == dict;
      }
    }

    /** One chunk's handles. */
    method TakeHandles(ghost d: map<Key, DictEntry>, order: seq<Key>, ghost handles: seq<Option<u32>>, start: nat, n: nat,
                       ghost call: CallResult, buf: seq<byte>)
      requires Filled(dict, d, order, handles) && |handles| == start && start + n <= |order| && AllIn(order, d)
      requires call.Replied? && buf == ReadBuf(call, HandleReadSize(n))
      modifies this`dict
      ensures Filled(dict, d, order, handles + ChunkHandles(n, call))
    {
      ghost var chunk := ChunkHandles(n, call);
      var i: nat := 0;
      NoneYet(handles, chunk);
      while i < n
        invariant i <= n && |chunk| == n
        invariant Filled(dict, d, order, handles + chunk[..i])
      {
        InTheTable(order, d, start + i);
        TakeHandle(d, order, handles + chunk[..i], start + i, n, i, buf);
        JoinOne(handles, chunk, i);
        i := i + 1;
      }
      AllTaken(chunk);
    }

    /** One chunk of the second pass. */
    method ResolveHandleChunk(ghost d: map<Key, DictEntry>, order: seq<Key>, ads: Ads, chunk: nat)
      requires chunk < ChunkCount(|order|) && AllIn(order, d) && HandlesDone(dict, d, order, ads, chunk)
      modifies this`dict
      ensures HandlesDone(dict, d, order, ads, chunk + 1)
    {
      var chunkStart, chunkN, keys := CutChunk(order, chunk);
      SameSymbols(d, order, HandlesUpTo(d, order, ads, chunk), keys);
      var call := CallForHandles(ads, SymbolsOf(dict, keys));
      HandlesUnfold(d, order, ads, chunk, chunk + 1);
      if call.Failed? {
        NoHandles(d, order, HandlesUpTo(d, order, ads, chunk), chunkN);
      } else {
        TakeHandles(d, order, HandlesUpTo(d, order, ads, chunk), chunkStart, chunkN, call,
                    ReadBuf(call, HandleReadSize(chunkN)));
      }
    }

    /** The second pass, over the dictionary's keys in the order its table yields them. */
    method ResolveSymbolHandles(order: seq<Key>, ads: Ads)
      requires AllIn(order, dict)
      modifies this`dict
      ensures dict == WithHandles(old(dict), order, HandlesUpTo(old(dict), order, ads, ChunkCount(|order|)))
    {
      ghost var d := dict;
      var nChunks := ChunkCount(|order|);
      var chunk: nat := 0;
      while chunk < nChunks
        invariant chunk <= nChunks
        invariant HandlesDone(dict, d, order, ads, chunk)
      {
        ResolveHandleChunk(d, order, ads, chunk);
        chunk := chunk + 1;
      }
      assert chunk == nChunks;
    }

    /** The lookup updateParamInfoWithPLCInfo makes for a parameter that is not an address command. */
    method LookUp(plcAdrStr: Name) returns (hit: Option<DictEntry>)
      ensures hit == Found(dict, plcAdrStr)
      ensures forall other: Name :: SameName(plcAdrStr, other) ==> hit == Found(dict, other)
    {
      forall other: Name | SameName(plcAdrStr, other) ensures Found(dict, other) == Found(dict, plcAdrStr) {
        SpellingsFindSame(dict, plcAdrStr, other);
      }
      hit := None;
      if dict != map[] {
        var key := Lower(plcAdrStr);
        if key in dict && dict[key].resolved && dict[key].size > 0 && dict[key].adst != ADST_VOID {
          hit := Some(dict[key]);
        }
      }
    }
  }

  lemma {:induction false} NothingGathered(symbols: seq<Name>, infos: seq<Option<Info>>, n: nat)
    requires |infos| + n <= |symbols|
    ensures Gathered(symbols, infos + ChunkInfos(n, Failed)) == Gathered(symbols, infos)
    ensures CountOk(infos + ChunkInfos(n, Failed)) == CountOk(infos)
    decreases n
  {
    if n == 0 {
      assert infos + ChunkInfos(0, Failed) == infos;
    } else {
      NothingGathered(symbols, infos, n - 1);
      var before := infos + ChunkInfos(n - 1, Failed);
      GatheredSnoc(symbols, before, None);
      CountOkSnoc(before, None);
      assert before + [None] == infos + ChunkInfos(n, Failed);
    }
  }

  lemma {:induction false} NoHandles(d: map<Key, DictEntry>, order: seq<Key>, handles: seq<Option<u32>>, n: nat)
    requires |handles| + n <= |order|
    ensures WithHandles(d, order, handles + ChunkHandles(n, Failed)) == WithHandles(d, order, handles)
    decreases n
  {
    if n == 0 {
      assert handles + ChunkHandles(0, Failed) == handles;
    } else {
      NoHandles(d, order, handles, n - 1);
      var before := handles + ChunkHandles(n - 1, Failed);
      assert before + [None] == handles + ChunkHandles(n, Failed);
      assert (before + [None])[..|before|] == before;
    }
  }
}
