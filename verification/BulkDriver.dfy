/** The driver object itself: its tables are updated in place, and every method
    is proved to compute the function of BulkModel that describes it. */
module BulkDriver {
  import opened Bytes
  import opened BulkModel
  import opened BulkInvariants
  import opened BulkProofs
  import opened SumRead
  import DrvInfo

  /** Bytes the decoder will walk over from slot `j` on. */
  function Span(params: seq<Param>, count: nat, ids: seq<int>, j: nat): nat
    requires count <= |params| && j <= |ids|
    decreases |ids| - j
  {
    if j == |ids| then 0
    else (if 0 <= ids[j] < count then params[ids[j]].plcSize else 0) + Span(params, count, ids, j + 1)
  }

  lemma {:induction false} SpanUntouched(ps: seq<Param>, qs: seq<Param>, count: nat, ids: seq<int>, j: nat)
    requires count <= |ps| == |qs| && j <= |ids|
    requires forall k :: 0 <= k < |ps| ==> ps[k].plcSize == qs[k].plcSize
    ensures Span(ps, count, ids, j) == Span(qs, count, ids, j)
    decreases |ids| - j
  {
    if j < |ids| {
      SpanUntouched(ps, qs, count, ids, j + 1);
    }
  }

  lemma UsedChunk(s: State, i: nat)
    requires Inv(s) && i < MAXBULK && s.bulk[i].cnt != 0
    ensures ChunkShape(s.bulk[i]) && RESERVED < s.bulk[i].cnt && s.count <= |s.params|
  {
    assert Opened(s.bulk[i]);
  }

  /** The table and the positions of the next status word and the next bytes. */
  datatype Walk = Walk(params: seq<Param>, stat: nat, srd: nat)

  function Turn(w: Walk, count: nat, k: int, data: seq<byte>): (r: Walk)
    requires count <= |w.params|
    ensures |r.params| == |w.params|
  {
    if 0 <= k < count then Walk(Share(w.params, k, w.stat, w.srd, data), w.stat + 4, w.srd + w.params[k].plcSize) else w
  }

  /** What the rest of the walk makes of the table. */
  function Rest(w: Walk, count: nat, ids: seq<int>, j: nat, data: seq<byte>): seq<Param>
    requires count <= |w.params| && j <= |ids|
  {
    Deal(w.params, count, ids, j, w.stat, w.srd, data)
  }

  /** The rest of the walk stays inside the data. */
  predicate Safe(w: Walk, count: nat, ids: seq<int>, j: nat, length: nat) {
    count <= |w.params| && j <= |ids| && w.stat <= 4 * j && 4 * |ids| <= length
    && w.srd + Span(w.params, count, ids, j) <= length
  }

  lemma TurnGoesOn(w: Walk, count: nat, ids: seq<int>, j: nat, next: nat, data: seq<byte>)
    requires next == j + 1 <= |ids| && Safe(w, count, ids, j, |data|)
    ensures w.stat + 4 <= |data| && (0 <= ids[j] < count ==> w.srd + w.params[ids[j]].plcSize <= |data|)
    ensures var t := Turn(w, count, ids[j], data);
            Safe(t, count, ids, next, |data|) && Rest(t, count, ids, next, data) == Rest(w, count, ids, j, data)
  {
    if 0 <= ids[j] < count {
      SpanUntouched(w.params, Turn(w, count, ids[j], data).params, count, ids, next);
    }
  }

  lemma PollIs(s: State, i: nat, data: seq<byte>)
    requires Shape(s) && i < MAXBULK && RESERVED < s.bulk[i].cnt
    ensures var c := s.bulk[i];
            Poll(s, i, data)
            == s.(params := Deal(s.params, s.count, c.paramID[..c.cnt], RESERVED, 8,
                                 4 * c.cnt + c.sum[0].size + c.sum[1].size, data))
  {
  }

  lemma ShareRead(data: seq<byte>, stat: nat, srd: nat, size: nat, word: seq<byte>, bytes: seq<byte>)
    requires stat + 4 <= |data| && srd + size <= |data| && word == data[stat..stat + 4] && bytes == data[srd..srd + size]
    ensures WordAt(data, stat) == DecodeU32(word) && SliceAt(data, srd, size) == bytes
  {
  }

  class Driver {
    const params: array<Param>
    const bulk: array<Chunk>
    const bulkdata: array<byte>
    var count: nat
    var asynNames: seq<string>
    var created: map<string, int>
    var ts: seq<TsEntry>
    var ports: seq<PortInfo>
    var connected: bool
    var bulkOK: bool
    ghost var log: seq<Event>

    ghost function View(): State
      reads this, params, bulk
    {
      State(params[..], count, asynNames, created, bulk[..], ts, ports, connected, bulkOK, log)
    }

    ghost predicate Valid()
      reads this, params, bulk
    {
      Inv(View())
    }

    constructor (tableSize: nat, dataSize: nat, defaultPort: u16)
      requires tableSize >= 1
      ensures Valid() && fresh(params) && fresh(bulk) && fresh(bulkdata)
      ensures bulkdata.Length == dataSize
      ensures exists chunk :: ChunkShape(chunk) && View() == Init(tableSize, chunk, defaultPort)
    {
      var blank := Chunk(0, 0, seq(BULKSIZ, i => Request(0, 0, 0)), seq(BULKSIZ, i => 0), 0);
      params := new Param[tableSize](i => BLANK_PARAM);
      bulk := new Chunk[MAXBULK](i => blank);
      bulkdata := new byte[dataSize](i => 0);
      count, asynNames, created := 1, ["Default access"], map[];
      ts, ports := [], [PortInfo(defaultPort, false, false)];
      connected, bulkOK := false, false;
      log := [];
      new;
      InitInv(tableSize, blank, defaultPort);
      assert blank.(cnt := 0) == blank;
      assert View().params == Init(tableSize, blank, defaultPort).params;
      assert View().bulk == Init(tableSize, blank, defaultPort).bulk;
    }

    method FindBulkTimeStamp(port: u16, a: Answers) returns (i: nat)
      modifies this`ts
      ensures i == FindTs(old(ts), port) && ts == RefreshTs(old(ts), port, a) && i < |ts|
    {
      i := 0;
      while i < |ts|
        invariant i <= |ts|
        invariant FindTs(ts, port) == FindTs(ts, port, i)
      {
        if port == ts[i].amsPort {
          break;
        }
        i := i + 1;
      }
      if i == |ts| {
        ts := ts + [TsEntry(port, 0, 0, true)];
      }
      if ts[i].refreshNeeded {
        if a.tsHigh.Some? {
          ts := ts[i := ts[i].(handleH := a.tsHigh.value)];
        }
        if a.tsLow.Some? {
          ts := ts[i := ts[i].(handleL := a.tsLow.value)];
        }
        if a.tsHigh.Some? && a.tsLow.Some? {
          ts := ts[i := ts[i].(refreshNeeded := false)];
        }
      }
    }

    /** Takes an unused chunk into use for the port. */
    method OpenBulk(i: nat, port: u16, a: Answers)
      requires i < bulk.Length && ChunkShape(bulk[i]) && bulk[i].cnt == 0
      modifies this`ts, bulk
      ensures ts == RefreshTs(old(ts), port, a)
      ensures bulk[..] == old(bulk[..])[i := OpenChunk(old(bulk[i]), port, ts[FindTs(old(ts), port)])]
    {
      bulk[i] := bulk[i].(amsPort := port);
      var j := FindBulkTimeStamp(port, a);
      if ts[j].refreshNeeded {
        bulk[i] := bulk[i].(sum := bulk[i].sum[0 := Request(MEMORY_GROUP, 0, 4)]);
        bulk[i] := bulk[i].(sum := bulk[i].sum[1 := Request(MEMORY_GROUP, 0, 4)]);
      } else {
        bulk[i] := bulk[i].(sum := bulk[i].sum[0 := Request(SYM_VALBYHND, ts[j].handleH, 4)]);
        bulk[i] := bulk[i].(sum := bulk[i].sum[1 := Request(SYM_VALBYHND, ts[j].handleL, 4)]);
      }
      bulk[i] := bulk[i].(cnt := 2, readSize := 16);
    }

    /** The scan for a chunk with room. */
    method FindRoom(port: u16) returns (i: nat)
      requires bulk.Length == MAXBULK
      ensures i == FirstFit(bulk[..], port)
    {
      i := 0;
      while i < MAXBULK
        invariant i <= MAXBULK
        invariant FirstFit(bulk[..], port) == FirstFit(bulk[..], port, i)
      {
        if bulk[i].cnt == 0 || (bulk[i].cnt != BULKSIZ && bulk[i].amsPort == port) {
          break;
        }
        i := i + 1;
      }
    }

    /** The next free slot of a chunk, given to the parameter. */
    method TakeSlot(k: nat, i: nat)
      requires k < params.Length && i < bulk.Length && ChunkShape(bulk[i]) && bulk[i].cnt < BULKSIZ
      modifies params, bulk
      ensures params[..] == old(params[..])[k := old(params[k]).(bulkIndex := i, bulkOffset := old(bulk[i]).cnt)]
      ensures var c := old(bulk[i]);
              bulk[..] == old(bulk[..])[i := c.(cnt := c.cnt + 1, paramID := c.paramID[c.cnt := old(params[k]).paramIndex])]
    {
      params[k] := params[k].(bulkIndex := i);
      params[k] := params[k].(bulkOffset := bulk[i].cnt);
      bulk[i] := bulk[i].(paramID := bulk[i].paramID[bulk[i].cnt := params[k].paramIndex]);
      bulk[i] := bulk[i].(cnt := bulk[i].cnt + 1);
    }

    /** Opens the chunk if it is unused, and takes its next slot. */
    method PlaceIn(k: nat, i: nat, a: Answers)
      requires Shape(View()) && 1 <= k < count && i == FirstFit(bulk[..], params[k].amsPort) < MAXBULK
      modifies this`ts, params, bulk
      ensures View() == Place(old(View()), k, a)
    {
      ghost var s := View();
      assert ChunkShape(s.bulk[i]) && Fits(s.bulk[i], params[k].amsPort);
      if bulk[i].cnt == 0 {
        OpenBulk(i, params[k].amsPort, a);
      }
      assert bulk[..] == s.bulk[i := TargetChunk(s, i, s.params[k].amsPort, a)];
      TakeSlot(k, i);
      assert bulk[..] == Place(s, k, a).bulk;
    }

    method AddToBulkRead(k: nat, a: Answers) returns (ok: bool)
      requires Shape(View()) && 1 <= k < count
      modifies this`ts, this`log, params, bulk
      ensures ok == !NoRoom(old(View()), k)
      ensures View() == if ok then AddToBulk(old(View()), k, a) else old(View())
    {
      if params[k].bulkIndex < 0 {
        var i := FindRoom(params[k].amsPort);
        if i == MAXBULK {
          return false;
        }
        PlaceIn(k, i, a);
      }
      Register(k);
      ok := true;
    }

    /** Writes the parameter's request into its slot. */
    method Register(k: nat)
      requires Shape(View()) && 1 <= k < count && params[k].bulkIndex >= 0
      modifies this`log, bulk
      ensures View() == WriteSlot(old(View()), k)
    {
      ghost var s := View();
      var p := params[k];
      var group, offset := SYM_VALBYHND, p.handle;
      if p.isAdr {
        group, offset := p.absGroup, p.absOffset;
      }
      var i, j := p.bulkIndex, p.bulkOffset;
      assert PlaceShape(s.params[k]) && ChunkShape(s.bulk[i]);
      bulk[i] := bulk[i].(sum := bulk[i].sum[j := Request(group, offset, p.plcSize)]);
      bulk[i] := bulk[i].(readSize := bulk[i].readSize + (p.plcSize as int + 4));
      log := log + [Registered(k, i, j, p.plcSize)];
      assert bulk[..] == WriteSlot(s, k).bulk;
    }

    /** adsGetSymInfoByName's answer, taken over. */
    method TakeInfo(k: nat, info: SymInfo)
      requires k < params.Length
      modifies params
      ensures params[..] == old(params[..])[k := Informed(old(params[k]), info)]
    {
      params[k] := params[k].(absGroup := info.group);
      params[k] := params[k].(absOffset := info.offset);
      params[k] := params[k].(plcSize := info.size);
      params[k] := params[k].(absValid := true);
    }

    /** Size and address from the dictionary or from the PLC. */
    method LookUpSymbol(k: nat, look: Lookup) returns (ok: bool)
      requires k < params.Length
      modifies params
      ensures ok == Described(old(params[k]), look).Some?
      ensures params[..] == if ok then old(params[..])[k := Described(old(params[k]), look).value] else old(params[..])
    {
      if !params[k].isAdr {
        match look
        case DictHit(size, handle) =>
          params[k] := params[k].(plcSize := size, handle := handle, handleValid := true);
        case Asked(None, _) =>
          return false;
        case Asked(Some(info), _) =>
          TakeInfo(k, info);
      }
      ok := true;
    }

    /** The old handle released and a new one asked for, unless the dictionary gave one. */
    method RenewHandle(k: nat, look: Lookup) returns (ok: bool)
      requires k < params.Length
      modifies params
      ensures ok == Handled(old(params[k]), look).1
      ensures params[..] == old(params[..])[k := Handled(old(params[k]), look).0]
    {
      if !params[k].isAdr && look.Asked? {
        params[k] := params[k].(handleValid := false);
        params[k] := params[k].(handle := NO_HANDLE);
        if look.given.None? {
          return false;
        }
        params[k] := params[k].(handle := look.given.value);
        params[k] := params[k].(handleValid := true);
      }
      ok := true;
    }

    method UpdateParamInfoWithPLCInfo(k: nat, a: Answers) returns (ok: bool)
      requires Shape(View()) && 1 <= k < count
      modifies this`ts, this`log, params, bulk
      ensures View() == UpdateParam(old(View()), k, a).0 && ok == UpdateParam(old(View()), k, a).1
    {
      ghost var s := View();
      if params[k].source != FromPlc {
        Finish(k);
        return true;
      }
      var found := LookUpSymbol(k, a.lookup);
      if !found {
        return false;
      }
      if !params[k].isAdr {
        log := log + [Sized(k, params[k].plcSize)];
      }
      ghost var t := Describe(s, k, Described(s.params[k], a.lookup).value);
      assert View() == t;
      if !a.bufferOk {
        return false;
      }
      var held := RenewHandle(k, a.lookup);
      assert View() == SetParam(t, k, Handled(Described(s.params[k], a.lookup).value, a.lookup).0);
      if !held {
        return false;
      }
      ok := DeliverParam(k, a);
    }

    method Finish(k: nat)
      requires Shape(View()) && 1 <= k < count
      modifies this`log, params
      ensures View() == Complete(old(View()), k)
    {
      ghost var s := View();
      params[k] := params[k].(refreshNeeded := false);
      log := log + [Completed(k)];
      assert params[..] == Complete(s, k).params;
    }

    method DeliverParam(k: nat, a: Answers) returns (ok: bool)
      requires Shape(View()) && 1 <= k < count
      modifies this`ts, this`log, params, bulk
      ensures View() == Deliver(old(View()), k, a).0 && ok == Deliver(old(View()), k, a).1
    {
      if params[k].isIOIntr {
        if !params[k].isBulkRead || params[k].plcSize > SUBSCRIBE_LIMIT {
          var subscribed := AddDataCallback(k, a);
          if !subscribed {
            return false;
          }
        } else {
          var added := AddToBulkRead(k, a);
          if !added {
            return false;
          }
        }
      }
      Finish(k);
      ok := true;
    }

    /** The description fetched late, if the parameter has none of its own;
        fails for an address command without a valid address. */
    method FetchInfo(k: nat, info: Option<SymInfo>) returns (ok: bool)
      requires Shape(View()) && k < params.Length
      modifies this`log, params
      ensures View() == Refetch(old(View()), k, info).0 && ok == Refetch(old(View()), k, info).1
    {
      ghost var s := View();
      if params[k].isAdr {
        return params[k].absValid;
      }
      if !params[k].absValid {
        if info.None? {
          return false;
        }
        TakeInfo(k, info.value);
        log := log + [Sized(k, info.value.size)];
        assert params[..] == Refetch(s, k, info).0.params;
      }
      ok := true;
    }

    method AddDataCallback(k: nat, a: Answers) returns (ok: bool)
      requires Shape(View()) && k < params.Length
      modifies this`log, params
      ensures View() == Subscribe(old(View()), k, a).0 && ok == Subscribe(old(View()), k, a).1
    {
      var informed := FetchInfo(k, a.refetch);
      if !informed || !a.subscribeOk {
        return false;
      }
      log := log + [Subscribed(k)];
      ok := true;
    }

    /** The handle asked for if there is none, the request sent, and the bytes of a read taken over. */
    method TakeAnswer(k: nat, d: Direct) returns (sent: Option<Request>)
      requires k < params.Length
      modifies params
      ensures params[..] == old(params[..])[k := Answered(old(params[k]), d)]
      ensures sent == SentFor(old(params[k]), d.given)
    {
      var group, offset := params[k].absGroup, params[k].absOffset;
      if !params[k].isAdr {
        if !params[k].handleValid {
          if d.given.None? {
            return None;
          }
          params[k] := params[k].(handle := d.given.value);
          params[k] := params[k].(handleValid := true);
        }
        group, offset := SYM_VALBYHND, params[k].handle;
      }
      sent := Some(Request(group, offset, params[k].plcSize));
      if d.bytes.Some? && |d.bytes.value| == params[k].plcSize {
        params[k] := params[k].(value := d.bytes.value);
      }
    }

    /** The common path of adsReadParam and adsWriteParam, and the request it
        sends; a write takes no bytes back. */
    method AccessParam(k: nat, d: Direct) returns (sent: Option<Request>)
      requires Valid() && k < params.Length
      modifies this`log, params
      ensures View() == Access(old(View()), k, d) && sent == ReadRequest(old(params[k]), d)
      ensures Valid()
    {
      AccessKeepsInv(View(), k, d);
      if d.refused {
        return None;
      }
      ReadRequestAt(View(), k, d);
      var informed := FetchInfo(k, d.refetch);
      if !informed {
        return None;
      }
      sent := TakeAnswer(k, d);
    }

    method FlagParams(port: u16)
      requires 1 <= count <= params.Length
      modifies params
      ensures forall k :: 0 <= k < params.Length ==>
                params[k] == (if 1 <= k < count && Covers(port, old(params[k]).amsPort)
                              then old(params[k]).(refreshNeeded := true) else old(params[k]))
    {
      var k := 1;
      while k < count
        invariant 1 <= k <= count
        invariant forall l :: 0 <= l < params.Length ==>
                    params[l] == (if 1 <= l < k && Covers(port, old(params[l]).amsPort)
                                  then old(params[l]).(refreshNeeded := true) else old(params[l]))
      {
        if port == 0 || params[k].amsPort == port {
          params[k] := params[k].(refreshNeeded := true);
        }
        k := k + 1;
      }
    }

    method FlagTimeStamps(port: u16)
      modifies this`ts
      ensures ts == seq(|old(ts)|, i requires 0 <= i < |old(ts)| =>
                if Covers(port, old(ts)[i].amsPort) then old(ts)[i].(refreshNeeded := true) else old(ts)[i])
    {
      ghost var before := ts;
      var n := 0;
      while n < |ts|
        invariant 0 <= n <= |ts| == |before|
        invariant forall i :: 0 <= i < |ts| ==>
                    ts[i] == if i < n && Covers(port, before[i].amsPort) then before[i].(refreshNeeded := true)
                             else before[i]
      {
        if port == 0 || ts[n].amsPort == port {
          ts := ts[n := ts[n].(refreshNeeded := true)];
        }
        n := n + 1;
      }
    }

    method InvalidateParams(port: u16)
      requires Shape(View()) && Packed(View().bulk)
      modifies this`bulkOK, this`ts, this`log, params, bulk
      ensures View() == Invalidate(old(View()), port)
    {
      ghost var t := Invalidate(View(), port);
      bulkOK := false;
      FlagParams(port);
      FlagTimeStamps(port);
      ResetReadSizes(port);
      log := log + [Invalidated(port)];
      assert params[..] == t.params;
      assert bulk[..] == t.bulk;
    }

    /** The last loop of the invalidation, which stops at the first unused chunk. */
    method ResetReadSizes(port: u16)
      requires bulk.Length == MAXBULK
      requires forall i, j :: 0 <= i < j < MAXBULK && bulk[j].cnt != 0 ==> bulk[i].cnt != 0
      modifies bulk
      ensures forall i :: 0 <= i < MAXBULK ==>
                bulk[i] == (if old(bulk[i]).cnt != 0 && Covers(port, old(bulk[i]).amsPort)
                            then old(bulk[i]).(readSize := TS_READ_SIZE) else old(bulk[i]))
    {
      var i := 0;
      while i < MAXBULK
        invariant 0 <= i <= MAXBULK
        invariant forall j :: i <= j < MAXBULK ==> bulk[j] == old(bulk[j])
        invariant forall j :: 0 <= j < i ==>
                    bulk[j] == (if old(bulk[j]).cnt != 0 && Covers(port, old(bulk[j]).amsPort)
                                then old(bulk[j]).(readSize := TS_READ_SIZE) else old(bulk[j]))
      {
        if bulk[i].cnt == 0 {
          break;
        }
        if port == 0 || bulk[i].amsPort == port {
          bulk[i] := bulk[i].(readSize := 16);
        }
        i := i + 1;
      }
    }

    /** One turn of the refresh loop. */
    method RefreshOne(port: u16, k: nat, answers: nat -> Answers)
      requires Valid() && 1 <= k < count
      modifies this`ts, this`log, params, bulk
      ensures Valid() && k + 1 <= View().count == old(View()).count
      ensures RefreshFrom(old(View()), port, answers, k) == RefreshFrom(View(), port, answers, k + 1)
    {
      if (port == 0 || params[k].amsPort == port) && params[k].refreshNeeded {
        UpdateKeepsInv(View(), k, answers(k));
        var ok := UpdateParamInfoWithPLCInfo(k, answers(k));
      }
    }

    /** The refresh loop. */
    method RefreshRegistered(port: u16, answers: nat -> Answers)
      requires Valid()
      modifies this`ts, this`log, params, bulk
      ensures Valid() && View() == RefreshFrom(old(View()), port, answers, 1)
    {
      ghost var all := RefreshFrom(View(), port, answers, 1);
      var k := 1;
      while k < count
        invariant 1 <= k <= count && Valid()
        invariant all == RefreshFrom(View(), port, answers, k)
      {
        RefreshOne(port, k, answers);
        k := k + 1;
      }
      assert k == count;
    }

    method RefreshParams(port: u16, answers: nat -> Answers, notifyOk: bool)
      requires Valid()
      modifies this`ts, this`log, this`ports, this`bulkOK, params, bulk
      ensures View() == Refresh(old(View()), port, answers, notifyOk)
      ensures Valid()
    {
      ghost var s := View();
      if connected {
        RefreshRegistered(port, answers);
        RenewSymbolCallbacks(port, notifyOk);
      }
      bulkOK := true;
      RefreshKeepsInv(s, port, answers, notifyOk);
    }

    method RenewSymbolCallbacks(port: u16, notifyOk: bool)
      modifies this`ports
      ensures ports == RenewPorts(old(ports), port, notifyOk)
    {
      ghost var renewed := RenewPorts(ports, port, notifyOk);
      ghost var before := ports;
      var n := 0;
      while n < |ports|
        invariant 0 <= n <= |ports| == |before|
        invariant ports == renewed[..n] + before[n..]
      {
        if ports[n].amsPort == port && ports[n].refreshNeeded && notifyOk {
          ports := ports[n := ports[n].(refreshNeeded := false)];
        }
        n := n + 1;
      }
    }

    /** One port's turn in the supervision loop. */
    method SuperviseOnePort(i: nat, running: bool, answers: nat -> Answers, notifyOk: bool)
      requires Valid() && i < |ports|
      modifies this`ts, this`log, this`ports, this`bulkOK, params, bulk
      ensures View() == SupervisePort(old(View()), i, running, answers, notifyOk)
      ensures Valid()
    {
      ghost var s := View();
      var port := ports[i];
      ports := ports[i := port.(connected := running)];
      OtherFieldsFree(s, View());
      if running && ports[i].refreshNeeded {
        RefreshParams(port.amsPort, answers, notifyOk);
      }
      if port.connected && !running {
        InvalidateParams(port.amsPort);
        ports := ports[i := ports[i].(refreshNeeded := true)];
      }
      SuperviseKeepsInv(s, i, running, answers, notifyOk);
    }

    /** The symbol-version callback. */
    method SymbolsChangedCallback(port: u16, answers: nat -> Answers, notifyOk: bool)
      requires Valid()
      modifies this`ts, this`log, this`ports, this`bulkOK, params, bulk
      ensures View() == SymbolsChanged(old(View()), port, answers, notifyOk)
      ensures Valid()
    {
      InvalidateKeepsInv(View(), port);
      InvalidateParams(port);
      RefreshParams(port, answers, notifyOk);
    }

    /** The ADS call: as much of the reply as was asked for lands in the buffer. */
    method ReceiveReply(reply: seq<byte>, readSize: nat)
      requires readSize <= bulkdata.Length
      modifies bulkdata
      ensures bulkdata[..] == AfterCall(old(bulkdata[..]), reply, readSize)
    {
      var copied := if |reply| <= readSize then |reply| else readSize;
      forall n | 0 <= n < copied {
        bulkdata[n] := reply[n];
      }
    }

    /** The reply in the buffer handed out slot by slot. */
    method DecodeReply(c: Chunk)
      requires ChunkShape(c) && c.cnt >= RESERVED && count <= params.Length
      requires 4 * c.cnt + c.sum[0].size + c.sum[1].size
               + Span(params[..], count, c.paramID[..c.cnt], RESERVED) <= bulkdata.Length
      modifies params
      ensures params[..] == Deal(old(params[..]), count, c.paramID[..c.cnt], RESERVED, 8,
                                 4 * c.cnt + c.sum[0].size + c.sum[1].size, bulkdata[..])
    {
      ghost var ids, data := c.paramID[..c.cnt], bulkdata[..];
      var stat: nat, srd: nat := 0, c.cnt * 4;
      srd := srd + c.sum[0].size;
      srd := srd + c.sum[1].size;
      stat := stat + 8;
      ghost var goal := Rest(Walk(params[..], stat, srd), count, ids, RESERVED, data);
      var j: nat := 2;
      while j < c.cnt
        invariant 2 <= j <= c.cnt && Safe(Walk(params[..], stat, srd), count, ids, j, |data|)
        invariant goal == Rest(Walk(params[..], stat, srd), count, ids, j, data)
      {
        var next: nat := j + 1;
        TurnGoesOn(Walk(params[..], stat, srd), count, ids, j, next, data);
        stat, srd := DecodeSlot(c.paramID[j], stat, srd);
        j := next;
      }
      assert j == c.cnt;
    }

    /** One turn of the decoding loop; an id that is not registered is passed over. */
    method DecodeSlot(k: int, stat: nat, srd: nat) returns (stat': nat, srd': nat)
      requires count <= params.Length && stat + 4 <= bulkdata.Length
      requires 0 <= k < count ==> srd + params[k].plcSize <= bulkdata.Length
      modifies params
      ensures Walk(params[..], stat', srd') == Turn(Walk(old(params[..]), stat, srd), count, k, bulkdata[..])
    {
      if !(0 <= k < count) {
        return stat, srd;
      }
      var size := params[k].plcSize;
      TakeShare(k, stat, srd);
      return stat + 4, srd + size;
    }

    /** One slot: its status may flag the parameter, its bytes become the value. */
    method TakeShare(k: nat, stat: nat, srd: nat)
      requires k < params.Length && stat + 4 <= bulkdata.Length && srd + params[k].plcSize <= bulkdata.Length
      modifies params
      ensures params[..] == Share(old(params[..]), k, stat, srd, bulkdata[..])
    {
      ghost var data, p := bulkdata[..], params[k];
      var status := DecodeU32(bulkdata[stat..stat + 4]);
      var bytes := bulkdata[srd..srd + params[k].plcSize];
      ShareRead(data, stat, srd, p.plcSize, bulkdata[stat..stat + 4], bytes);
      if status != 0 {
        params[k] := params[k].(refreshNeeded := true);
      }
      params[k] := params[k].(value := bytes);
      assert params[k] == Received(p, WordAt(data, stat), SliceAt(data, srd, p.plcSize));
    }

    /** A reply taken into the buffer and handed out. */
    method TakeReply(c: Chunk, reply: seq<byte>)
      requires ChunkShape(c) && c.cnt >= RESERVED && count <= params.Length && 0 <= c.readSize <= bulkdata.Length
      requires 4 * c.cnt + c.sum[0].size + c.sum[1].size
               + Span(params[..], count, c.paramID[..c.cnt], RESERVED) <= bulkdata.Length
      modifies params, bulkdata
      ensures bulkdata[..] == AfterCall(old(bulkdata[..]), reply, c.readSize)
      ensures params[..] == Deal(old(params[..]), count, c.paramID[..c.cnt], RESERVED, 8,
                                 4 * c.cnt + c.sum[0].size + c.sum[1].size, bulkdata[..])
    {
      ReceiveReply(reply, c.readSize);
      DecodeReply(c);
    }

    method PollUsed(i: nat, reply: seq<byte>)
      requires Shape(View()) && i < MAXBULK && RESERVED < bulk[i].cnt && 0 <= bulk[i].readSize <= bulkdata.Length
      requires 4 * bulk[i].cnt + bulk[i].sum[0].size + bulk[i].sum[1].size
               + Span(params[..], count, bulk[i].paramID[..bulk[i].cnt], RESERVED) <= bulkdata.Length
      modifies params, bulkdata
      ensures bulkdata[..] == AfterCall(old(bulkdata[..]), reply, bulk[i].readSize)
      ensures View() == Poll(old(View()), i, bulkdata[..])
    {
      ghost var s := View();
      assert ChunkShape(s.bulk[i]);
      TakeReply(bulk[i], reply);
      PollIs(s, i, bulkdata[..]);
    }

    /** One chunk's turn in the bulk-read loop. */
    method PollChunk(i: nat, callOk: bool, reply: seq<byte>)
      requires Valid() && i < MAXBULK && bulk[i].cnt != 0
      requires 0 <= bulk[i].readSize <= bulkdata.Length
      requires 4 * bulk[i].cnt + bulk[i].sum[0].size + bulk[i].sum[1].size
               + Span(params[..], count, bulk[i].paramID[..bulk[i].cnt], RESERVED) <= bulkdata.Length
      modifies params, bulkdata
      ensures bulkdata[..] == if bulkOK && callOk then AfterCall(old(bulkdata[..]), reply, bulk[i].readSize)
                              else old(bulkdata[..])
      ensures View() == if bulkOK && callOk then Poll(old(View()), i, bulkdata[..]) else old(View())
      ensures Valid()
    {
      if bulkOK && callOk {
        ghost var s := View();
        UsedChunk(s, i);
        PollUsed(i, reply);
        PollKeepsInv(s, i, bulkdata[..]);
      }
    }

    /** The table entry for a new link, filled in from its text. */
    method PrepareParam(c: Creation) returns (prepared: bool, known: bool)
      requires Shape(View())
      modifies this`ports, params
      ensures View() == Prepare(old(View()), c).0 && prepared == Prepare(old(View()), c).1
      ensures known <==> DrvInfo.IsValid(c.drvInfo) && c.drvInfo in created
    {
      ghost var s := View();
      if !DrvInfo.IsValid(c.drvInfo) {
        return false, false;
      }
      if c.drvInfo in created {
        return false, true;
      }
      if count >= params.Length - 1 {
        return false, false;
      }
      params[count] := params[count].(refreshNeeded := true);
      params[count] := params[count].(bulkIndex := -1, bulkOffset := -1);
      assert params[..] == s.params[count := params[count]];
      if c.parsed.None? {
        return false, false;
      }
      params[count] := NewParam(params[count], c.parsed.value);
      ports := AddPort(ports, c.parsed.value.amsPort);
      assert params[..] == s.params[count := params[count]];
      return true, false;
    }

    /** Everything drvUserCreate does before it asks the PLC. */
    method EnterParam(c: Creation) returns (entered: bool, known: bool)
      requires Shape(View())
      modifies this`count, this`asynNames, this`created, this`ports, this`connected, params
      ensures View() == Enter(old(View()), c).0 && entered == Enter(old(View()), c).1
      ensures known <==> DrvInfo.IsValid(c.drvInfo) && c.drvInfo in old(created)
    {
      var prepared;
      prepared, known := PrepareParam(c);
      if !prepared || !c.recordFound || c.drvInfo in asynNames {
        return false, known;
      }
      ghost var t := View();
      var index := |asynNames|;
      asynNames := asynNames + [c.drvInfo];
      params[count] := params[count].(paramIndex := index);
      assert params[..] == t.params[count := params[count]];
      if !c.addressOk {
        return false, known;
      }
      count := count + 1;
      created := created[c.drvInfo := index];
      if !connected && c.connectOk {
        connected := true;
      }
      entered := true;
    }

    method DrvUserCreate(c: Creation) returns (ok: bool)
      requires Valid()
      modifies this`count, this`asynNames, this`created, this`ports, this`connected, this`ts, this`log, params, bulk
      ensures View() == Create(old(View()), c)
      ensures Valid()
      ensures DrvInfo.IsValid(c.drvInfo) && c.drvInfo in old(created) ==> ok && View() == old(View())
    {
      ghost var s := View();
      var k := count;
      var entered, known := EnterParam(c);
      ok := known || entered;
      if entered && connected && params[k].source == FromPlc {
        ok := UpdateParamInfoWithPLCInfo(k, c.answers);
      }
      CreateKeepsInv(s, c);
    }
  }
}
