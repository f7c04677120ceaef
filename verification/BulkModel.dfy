/** The driver's parameter table and bulk-read index as values, with one
    function for each thing the driver does to them. The class in BulkDriver
    is proved to compute these functions; the theorems about runs are proved
    on them. */
module BulkModel {
  import opened Bytes
  import DrvInfo

  const BULKSIZ: nat := 500
  const MAXBULK: nat := 2000
  const RESERVED: nat := 2
  const TS_READ_SIZE: int := 16
  const STATUS_SIZE: int := 4
  const SUBSCRIBE_LIMIT: nat := 1024 * 1024
  const SYM_VALBYHND: u32 := 0xF005
  const MEMORY_GROUP: u32 := 0x4020
  const NO_HANDLE: u32 := 0xFFFF_FFFF
  const ALL_PORTS: u16 := 0

  /** One sub-request of a sum read. */
  datatype Request = Request(group: u32, offset: u32, size: u32)

  /** One bulk request: `sum` and `paramID` are filled up to `cnt`. */
  datatype Chunk = Chunk(cnt: nat, amsPort: u16, sum: seq<Request>, paramID: seq<int>, readSize: int)

  datatype TsEntry = TsEntry(amsPort: u16, handleH: u32, handleL: u32, refreshNeeded: bool)

  datatype PortInfo = PortInfo(amsPort: u16, connected: bool, refreshNeeded: bool)

  datatype Source = FromPlc | FromDriver

  datatype Param = Param(
    amsPort: u16, paramIndex: int, isIOIntr: bool, isBulkRead: bool, isAdr: bool, source: Source,
    absGroup: u32, absOffset: u32, absValid: bool, plcSize: u32, handle: u32, handleValid: bool,
    refreshNeeded: bool, bulkIndex: int, bulkOffset: int, value: seq<byte>)

  /** The history the theorems speak about: what each step did, in order. */
  datatype Event =
    | Completed(param: nat)
    | Invalidated(port: u16)
    | Registered(param: nat, chunk: nat, slot: nat, size: u32)
    | Subscribed(param: nat)
    | Sized(param: nat, size: u32)

  datatype State = State(
    params: seq<Param>, count: nat, asynNames: seq<string>, created: map<string, int>,
    bulk: seq<Chunk>, ts: seq<TsEntry>, ports: seq<PortInfo>,
    connected: bool, bulkOK: bool, log: seq<Event>)

  /** What the PLC says while one parameter is brought up to date. */
  datatype SymInfo = SymInfo(group: u32, offset: u32, size: u32)
  datatype Lookup = DictHit(size: u32, handle: u32) | Asked(info: Option<SymInfo>, given: Option<u32>)
  datatype Answers = Answers(
    lookup: Lookup, bufferOk: bool, refetch: Option<SymInfo>, subscribeOk: bool, tsHigh: Option<u32>, tsLow: Option<u32>)

  datatype Parsed = Parsed(
    amsPort: u16, isIOIntr: bool, isBulkRead: bool, isAdr: bool, source: Source,
    absGroup: u32, absOffset: u32, size: u32)

  datatype Creation = Creation(
    drvInfo: string, parsed: Option<Parsed>, recordFound: bool, addressOk: bool, connectOk: bool, answers: Answers)

  predicate ChunkShape(c: Chunk) {
    |c.sum| == BULKSIZ && |c.paramID| == BULKSIZ && c.cnt <= BULKSIZ
  }

  predicate Places(p: Param, i: int, j: int) {
    p.bulkIndex == i && p.bulkOffset == j
  }

  predicate PlaceShape(p: Param) {
    p.bulkIndex < 0 || (p.bulkIndex < MAXBULK && 0 <= p.bulkOffset < BULKSIZ)
  }

  ghost predicate Shape(s: State) {
    && 1 <= s.count <= |s.params|
    && |s.bulk| == MAXBULK
    && (forall i :: 0 <= i < MAXBULK ==> ChunkShape(s.bulk[i]))
    && (forall k :: 1 <= k < s.count ==> PlaceShape(s.params[k]))
  }

  /** The request that reads one parameter by itself. */
  function LoneRequest(p: Param): Request {
    if p.isAdr then Request(p.absGroup, p.absOffset, p.plcSize) else Request(SYM_VALBYHND, p.handle, p.plcSize)
  }

  // ----- adsFindBulkTimeStamp and adsAddToBulkRead -----

  /** First entry for the port; |ts| when there is none. */
  function FindTs(ts: seq<TsEntry>, port: u16, i: nat := 0): (r: nat)
    requires i <= |ts|
    ensures i <= r <= |ts|
    ensures r < |ts| ==> ts[r].amsPort == port
    ensures forall j :: i <= j < r ==> ts[j].amsPort != port
    decreases |ts| - i
  {
    if i == |ts| || ts[i].amsPort == port then i else FindTs(ts, port, i + 1)
  }

  /** The time-stamp handles of a port, asked for when they are missing or stale. */
  function AskTs(t: TsEntry, a: Answers): TsEntry {
    if !t.refreshNeeded then t
    else TsEntry(t.amsPort,
                 if a.tsHigh.Some? then a.tsHigh.value else t.handleH,
                 if a.tsLow.Some? then a.tsLow.value else t.handleL,
                 a.tsHigh.None? || a.tsLow.None?)
  }

  function RefreshTs(ts: seq<TsEntry>, port: u16, a: Answers): (r: seq<TsEntry>)
    ensures FindTs(ts, port) < |r|
  {
    var i := FindTs(ts, port);
    var known := if i == |ts| then ts + [TsEntry(port, 0, 0, true)] else ts;
    known[i := AskTs(known[i], a)]
  }

  predicate Fits(c: Chunk, port: u16) {
    c.cnt == 0 || (c.cnt != BULKSIZ && c.amsPort == port)
  }

  /** First chunk that is unused, or of this port and not full. */
  function FirstFit(bulk: seq<Chunk>, port: u16, i: nat := 0): (r: nat)
    requires i <= |bulk|
    ensures i <= r <= |bulk|
    ensures r < |bulk| ==> Fits(bulk[r], port)
    ensures forall j :: i <= j < r ==> !Fits(bulk[j], port)
    decreases |bulk| - i
  {
    if i == |bulk| || Fits(bulk[i], port) then i else FirstFit(bulk, port, i + 1)
  }

  /** A chunk taken into use: its first two sub-requests read the PLC time, or dummy memory. */
  function OpenChunk(c: Chunk, port: u16, t: TsEntry): (r: Chunk)
    requires ChunkShape(c)
    ensures ChunkShape(r)
  {
    var high := if t.refreshNeeded then Request(MEMORY_GROUP, 0, 4) else Request(SYM_VALBYHND, t.handleH, 4);
    var low := if t.refreshNeeded then Request(MEMORY_GROUP, 0, 4) else Request(SYM_VALBYHND, t.handleL, 4);
    c.(cnt := RESERVED, amsPort := port, sum := c.sum[0 := high][1 := low], readSize := TS_READ_SIZE)
  }

  /** The chunk the parameter goes to, opened if it was unused. */
  function TargetChunk(s: State, i: nat, port: u16, a: Answers): (r: Chunk)
    requires Shape(s) && i < MAXBULK
    ensures ChunkShape(r)
  {
    if s.bulk[i].cnt != 0 then s.bulk[i]
    else OpenChunk(s.bulk[i], port, RefreshTs(s.ts, port, a)[FindTs(s.ts, port)])
  }

  /** Gives a parameter its slot in the first chunk that fits. */
  function Place(s: State, k: nat, a: Answers): (r: State)
    requires Shape(s) && 1 <= k < s.count && FirstFit(s.bulk, s.params[k].amsPort) < MAXBULK
    ensures Shape(r) && r.count == s.count && |r.params| == |s.params|
    ensures 0 <= r.params[k].bulkIndex
  {
    var port := s.params[k].amsPort;
    var i := FirstFit(s.bulk, port);
    var c := TargetChunk(s, i, port, a);
    s.(params := s.params[k := s.params[k].(bulkIndex := i, bulkOffset := c.cnt)],
       bulk := s.bulk[i := c.(cnt := c.cnt + 1, paramID := c.paramID[c.cnt := s.params[k].paramIndex])],
       ts := if s.bulk[i].cnt == 0 then RefreshTs(s.ts, port, a) else s.ts)
  }

  /** Writes the parameter's current request into its slot and adds its reply bytes to the read size. */
  function WriteSlot(s: State, k: nat): (r: State)
    requires Shape(s) && 1 <= k < s.count && 0 <= s.params[k].bulkIndex
    ensures Shape(r) && r.count == s.count && |r.params| == |s.params|
  {
    var p := s.params[k];
    var c := s.bulk[p.bulkIndex];
    s.(bulk := s.bulk[p.bulkIndex := c.(sum := c.sum[p.bulkOffset := LoneRequest(p)],
                                        readSize := c.readSize + p.plcSize as int + STATUS_SIZE)],
       log := s.log + [Registered(k, p.bulkIndex, p.bulkOffset, p.plcSize)])
  }

  predicate NoRoom(s: State, k: nat)
    requires k < |s.params|
  {
    s.params[k].bulkIndex < 0 && FirstFit(s.bulk, s.params[k].amsPort) == |s.bulk|
  }

  function AddToBulk(s: State, k: nat, a: Answers): (r: State)
    requires Shape(s) && 1 <= k < s.count && !NoRoom(s, k)
    ensures Shape(r) && r.count == s.count && |r.params| == |s.params|
  {
    WriteSlot(if s.params[k].bulkIndex < 0 then Place(s, k, a) else s, k)
  }

  // ----- updateParamInfoWithPLCInfo -----

  function SetParam(s: State, k: nat, p: Param): (r: State)
    requires Shape(s) && k < |s.params|
    requires 1 <= k < s.count ==> PlaceShape(p)
    ensures Shape(r) && r.count == s.count && |r.params| == |s.params| && r.params[k] == p
  {
    s.(params := s.params[k := p])
  }

  function Complete(s: State, k: nat): (r: State)
    requires Shape(s) && k < |s.params|
    ensures Shape(r) && r.count == s.count && |r.params| == |s.params|
  {
    s.(params := s.params[k := s.params[k].(refreshNeeded := false)], log := s.log + [Completed(k)])
  }

  /** adsGetSymInfoByName's answer taken over. */
  function Informed(p: Param, info: SymInfo): Param {
    p.(absGroup := info.group, absOffset := info.offset, plcSize := info.size, absValid := true)
  }

  /** Size and absolute address as the dictionary or the PLC gives them; None when the PLC refuses. */
  function Described(p: Param, look: Lookup): Option<Param> {
    if p.isAdr then Some(p)
    else match look
      case DictHit(size, handle) => Some(p.(plcSize := size, handle := handle, handleValid := true))
      case Asked(None, _) => None
      case Asked(Some(info), _) =>
        Some(Informed(p, info))
  }

  /** The handle released and asked for again, unless it came from the dictionary. */
  function Handled(p: Param, look: Lookup): (Param, bool) {
    if p.isAdr || look.DictHit? then (p, true)
    else match look.given
      case None => (p.(handle := NO_HANDLE, handleValid := false), false)
      case Some(h) => (p.(handle := h, handleValid := true), true)
  }

  predicate Subscribes(p: Param) {
    !p.isBulkRead || p.plcSize > SUBSCRIBE_LIMIT
  }

  predicate LacksInfo(p: Param) {
    !p.isAdr && !p.absValid
  }

  /** The description of a symbol that has none of its own yet, as after a
      dictionary hit: its size is overwritten, its slot is not. */
  function Refetch(s: State, k: nat, info: Option<SymInfo>): (r: (State, bool))
    requires Shape(s) && k < |s.params|
    ensures Shape(r.0) && r.0.count == s.count && |r.0.params| == |s.params|
  {
    if !LacksInfo(s.params[k]) then (s, !s.params[k].isAdr || s.params[k].absValid)
    else match info
      case None => (s, false)
      case Some(i) => (SetParam(s, k, Informed(s.params[k], i)).(log := s.log + [Sized(k, i.size)]), true)
  }

  /** adsAddDataCallback, where the handle is valid already. */
  function Subscribe(s: State, k: nat, a: Answers): (r: (State, bool))
    requires Shape(s) && k < |s.params|
    ensures Shape(r.0) && r.0.count == s.count && |r.0.params| == |s.params|
  {
    var (t, informed) := Refetch(s, k, a.refetch);
    if !informed || !a.subscribeOk then (t, false) else (t.(log := t.log + [Subscribed(k)]), true)
  }

  /** How an input's values are to arrive: by subscription, or in a bulk read. */
  function Deliver(s: State, k: nat, a: Answers): (r: (State, bool))
    requires Shape(s) && 1 <= k < s.count
    ensures Shape(r.0) && r.0.count == s.count && |r.0.params| == |s.params|
  {
    var p := s.params[k];
    if !p.isIOIntr then (Complete(s, k), true)
    else if Subscribes(p) then
      var (t, subscribed) := Subscribe(s, k, a);
      if subscribed then (Complete(t, k), true) else (t, false)
    else if NoRoom(s, k) then (s, false)
    else (Complete(AddToBulk(s, k, a), k), true)
  }

  /** The description of a parameter taken over, and its size put on record if it is a symbol's. */
  function Describe(s: State, k: nat, q: Param): (r: State)
    requires Shape(s) && k < |s.params| && (1 <= k < s.count ==> PlaceShape(q))
    ensures Shape(r) && r.count == s.count && |r.params| == |s.params| && r.params[k] == q
  {
    var t := SetParam(s, k, q);
    if q.isAdr then t else t.(log := s.log + [Sized(k, q.plcSize)])
  }

  function UpdateFromPlc(s: State, k: nat, a: Answers): (r: (State, bool))
    requires Shape(s) && 1 <= k < s.count
    ensures Shape(r.0) && r.0.count == s.count && |r.0.params| == |s.params|
  {
    match Described(s.params[k], a.lookup)
    case None => (s, false)
    case Some(d) =>
      var t := Describe(s, k, d);
      if !a.bufferOk then (t, false)
      else
        var (h, gotHandle) := Handled(d, a.lookup);
        var u := SetParam(t, k, h);
        if !gotHandle then (u, false)
        else Deliver(u, k, a)
  }

  function UpdateParam(s: State, k: nat, a: Answers): (r: (State, bool))
    requires Shape(s) && 1 <= k < s.count
    ensures Shape(r.0) && r.0.count == s.count && |r.0.params| == |s.params|
  {
    if s.params[k].source != FromPlc then (Complete(s, k), true) else UpdateFromPlc(s, k, a)
  }

  /** Nothing beside the parameters, the chunks and the time stamps is different. */
  predicate SameTables(s: State, t: State) {
    && t.ports == s.ports && t.asynNames == s.asynNames && t.created == s.created
    && t.connected == s.connected && t.bulkOK == s.bulkOK
  }

  lemma SubscribeKeepsTables(s: State, k: nat, a: Answers)
    requires Shape(s) && k < |s.params|
    ensures SameTables(s, Subscribe(s, k, a).0)
  {
  }

  lemma AddKeepsTables(s: State, k: nat, a: Answers)
    requires Shape(s) && 1 <= k < s.count && !NoRoom(s, k)
    ensures SameTables(s, AddToBulk(s, k, a))
  {
  }

  lemma DeliverKeepsTables(s: State, k: nat, a: Answers)
    requires Shape(s) && 1 <= k < s.count
    ensures SameTables(s, Deliver(s, k, a).0)
  {
    SubscribeKeepsTables(s, k, a);
    if !NoRoom(s, k) {
      AddKeepsTables(s, k, a);
    }
  }

  lemma UpdateKeepsTables(s: State, k: nat, a: Answers)
    requires Shape(s) && 1 <= k < s.count
    ensures SameTables(s, UpdateParam(s, k, a).0)
  {
    if s.params[k].source == FromPlc && Described(s.params[k], a.lookup).Some? {
      var d := Described(s.params[k], a.lookup).value;
      DeliverKeepsTables(SetParam(Describe(s, k, d), k, Handled(d, a.lookup).0), k, a);
    }
  }

  // ----- adsReadParam and adsWriteParam -----

  /** A record reads or writes one parameter by itself: whether that is refused
      out of hand, at teardown or for want of an EtherCAT master; what the PLC says
      when description and handle are asked for; and the bytes of a read. */
  datatype Direct = Direct(refused: bool, refetch: Option<SymInfo>, given: Option<u32>, bytes: Option<seq<byte>>)

  function HandleAsked(p: Param, given: Option<u32>): (r: (Param, bool)) {
    if p.isAdr || p.handleValid then (p, true)
    else match given
      case None => (p, false)
      case Some(h) => (p.(handle := h, handleValid := true), true)
  }

  /** The request for a parameter that has its description. */
  function SentFor(p: Param, given: Option<u32>): Option<Request> {
    var (q, held) := HandleAsked(p, given);
    if !held then None
    else if q.isAdr then Some(Request(q.absGroup, q.absOffset, q.plcSize))
    else Some(Request(SYM_VALBYHND, q.handle, q.plcSize))
  }

  /** The request a read or a write of one parameter sends, if it gets that far. */
  function ReadRequest(p: Param, d: Direct): Option<Request> {
    if d.refused || (p.isAdr && !p.absValid) then None
    else if !LacksInfo(p) then SentFor(p, d.given)
    else if d.refetch.None? then None
    else SentFor(Informed(p, d.refetch.value), d.given)
  }

  lemma ReadRequestAt(s: State, k: nat, d: Direct)
    requires Shape(s) && k < |s.params| && !d.refused
    ensures var (t, informed) := Refetch(s, k, d.refetch);
            ReadRequest(s.params[k], d) == if informed then SentFor(t.params[k], d.given) else None
  {
  }

  /** A read or a write of one parameter outside the bulk reads; an address
      command whose address is not valid is refused. */
  function Access(s: State, k: nat, d: Direct): (r: State)
    requires Shape(s) && k < |s.params|
    ensures Shape(r) && r.count == s.count && |r.params| == |s.params|
  {
    var (t, informed) := Refetch(s, k, d.refetch);
    if d.refused then s
    else if !informed then t
    else
      SetParam(t, k, Answered(t.params[k], d))
  }

  /** The handle asked for if there is none, and the bytes of a read taken over if there are as many as expected. */
  function Answered(p: Param, d: Direct): Param {
    var (q, held) := HandleAsked(p, d.given);
    if held && d.bytes.Some? && |d.bytes.value| == q.plcSize then q.(value := d.bytes.value) else q
  }

  // ----- invalidateParams, refreshParams -----

  predicate Covers(arg: u16, port: u16) {
    arg == ALL_PORTS || port == arg
  }

  /** Flags every parameter of the port, marks its time-stamp handles stale and
      starts the size accounting of its chunks again. */
  function Invalidate(s: State, port: u16): (r: State)
    requires Shape(s)
    ensures Shape(r)
  {
    s.(bulkOK := false,
       params := seq(|s.params|, k requires 0 <= k < |s.params| =>
         if 1 <= k < s.count && Covers(port, s.params[k].amsPort) then s.params[k].(refreshNeeded := true)
         else s.params[k]),
       ts := seq(|s.ts|, i requires 0 <= i < |s.ts| =>
         if Covers(port, s.ts[i].amsPort) then s.ts[i].(refreshNeeded := true) else s.ts[i]),
       bulk := seq(|s.bulk|, i requires 0 <= i < |s.bulk| =>
         if s.bulk[i].cnt != 0 && Covers(port, s.bulk[i].amsPort) then s.bulk[i].(readSize := TS_READ_SIZE)
         else s.bulk[i]),
       log := s.log + [Invalidated(port)])
  }

  /** Brings the flagged parameters of the port up to date, from table position `k` on. */
  function RefreshFrom(s: State, port: u16, answers: nat -> Answers, k: nat): (r: State)
    requires Shape(s) && 1 <= k <= s.count
    ensures Shape(r) && r.count == s.count && |r.params| == |s.params|
    decreases s.count - k
  {
    if k == s.count then s
    else
      var t := if Covers(port, s.params[k].amsPort) && s.params[k].refreshNeeded
               then UpdateParam(s, k, answers(k)).0 else s;
      RefreshFrom(t, port, answers, k + 1)
  }

  function RenewPorts(ports: seq<PortInfo>, port: u16, notifyOk: bool): (r: seq<PortInfo>)
    ensures |r| == |ports|
  {
    seq(|ports|, i requires 0 <= i < |ports| =>
      if ports[i].amsPort == port && ports[i].refreshNeeded && notifyOk then ports[i].(refreshNeeded := false)
      else ports[i])
  }

  function Refresh(s: State, port: u16, answers: nat -> Answers, notifyOk: bool): (r: State)
    requires Shape(s)
    ensures Shape(r) && r.count == s.count && |r.params| == |s.params| && |r.ports| == |s.ports|
  {
    RefreshKeepsPorts(s, port, answers, 1);
    var t := if s.connected then RefreshFrom(s, port, answers, 1) else s;
    t.(ports := if s.connected then RenewPorts(t.ports, port, notifyOk) else t.ports, bulkOK := true)
  }

  lemma RefreshKeepsPorts(s: State, port: u16, answers: nat -> Answers, k: nat)
    requires Shape(s) && 1 <= k <= s.count
    ensures SameTables(s, RefreshFrom(s, port, answers, k))
    decreases s.count - k
  {
    if k < s.count {
      var t := if Covers(port, s.params[k].amsPort) && s.params[k].refreshNeeded
               then UpdateParam(s, k, answers(k)).0 else s;
      UpdateKeepsTables(s, k, answers(k));
      RefreshKeepsPorts(t, port, answers, k + 1);
    }
  }

  // ----- one supervision visit of one port, and a symbol-version callback -----

  function SupervisePort(s: State, i: nat, running: bool, answers: nat -> Answers, notifyOk: bool): (r: State)
    requires Shape(s) && i < |s.ports|
    ensures Shape(r)
  {
    var port := s.ports[i];
    var seen := s.(ports := s.ports[i := port.(connected := running)]);
    var renewed := if running && port.refreshNeeded then Refresh(seen, port.amsPort, answers, notifyOk) else seen;
    if port.connected && !running then
      var lost := Invalidate(renewed, port.amsPort);
      lost.(ports := lost.ports[i := lost.ports[i].(refreshNeeded := true)])
    else renewed
  }

  function SymbolsChanged(s: State, port: u16, answers: nat -> Answers, notifyOk: bool): (r: State)
    requires Shape(s)
    ensures Shape(r)
  {
    Refresh(Invalidate(s, port), port, answers, notifyOk)
  }

  // ----- drvUserCreate -----

  function AddPort(ports: seq<PortInfo>, port: u16): seq<PortInfo> {
    if exists i :: 0 <= i < |ports| && ports[i].amsPort == port then ports else ports + [PortInfo(port, false, false)]
  }

  function NewParam(p: Param, q: Parsed): Param {
    p.(amsPort := q.amsPort, isIOIntr := q.isIOIntr, isBulkRead := q.isBulkRead, isAdr := q.isAdr, source := q.source,
       absGroup := if q.isAdr then q.absGroup else p.absGroup,
       absOffset := if q.isAdr then q.absOffset else p.absOffset,
       absValid := q.isAdr,
       plcSize := if q.isAdr || q.source == FromDriver then q.size else p.plcSize)
  }

  /** The next table entry filled in from the link text, and whether that worked. */
  function Prepare(s: State, c: Creation): (r: (State, bool))
    requires Shape(s)
    ensures Shape(r.0) && r.0.count == s.count && |r.0.params| == |s.params|
    ensures r.1 ==> s.count + 1 < |s.params|
  {
    if !DrvInfo.IsValid(c.drvInfo) || c.drvInfo in s.created || s.count + 1 >= |s.params| then (s, false)
    else
      var raw := s.params[s.count].(refreshNeeded := true, bulkIndex := -1, bulkOffset := -1);
      match c.parsed
      case None => (SetParam(s, s.count, raw), false)
      case Some(q) => (SetParam(s, s.count, NewParam(raw, q)).(ports := AddPort(s.ports, q.amsPort)), true)
  }

  /** The state before the PLC is asked about the new parameter, and whether it got that far. */
  function Enter(s: State, c: Creation): (r: (State, bool))
    requires Shape(s)
    ensures Shape(r.0)
    ensures r.1 ==> r.0.count == s.count + 1
    ensures !r.1 ==> r.0.count == s.count
  {
    var (t, prepared) := Prepare(s, c);
    if !prepared || !c.recordFound || c.drvInfo in s.asynNames then (t, false)
    else
      var index := |s.asynNames|;
      var named := SetParam(t, s.count, t.params[s.count].(paramIndex := index))
                   .(asynNames := s.asynNames + [c.drvInfo]);
      if !c.addressOk then (named, false)
      else (named.(count := s.count + 1, created := s.created[c.drvInfo := index],
                   connected := s.connected || c.connectOk), true)
  }

  function Create(s: State, c: Creation): (r: State)
    requires Shape(s)
    ensures Shape(r)
  {
    var (t, entered) := Enter(s, c);
    if entered && t.connected && t.params[s.count].source == FromPlc then UpdateParam(t, s.count, c.answers).0 else t
  }

  // ----- one chunk's worth of bulkReadThread -----

  /** One parameter's share of a reply: its bytes, and its flag if the status is bad. */
  function Received(p: Param, status: u32, bytes: seq<byte>): Param {
    p.(refreshNeeded := p.refreshNeeded || status != 0, value := bytes)
  }

  /** Nothing but the value has changed, and the flag at most raised. */
  predicate Touched(p: Param, q: Param) {
    q == p.(refreshNeeded := q.refreshNeeded, value := q.value) && (p.refreshNeeded ==> q.refreshNeeded)
  }

  /** The table once parameter `k` has received its status word and its bytes. */
  function Share(params: seq<Param>, k: nat, stat: nat, srd: nat, data: seq<byte>): (r: seq<Param>)
    requires k < |params|
    ensures |r| == |params|
  {
    params[k := Received(params[k], WordAt(data, stat), SliceAt(data, srd, params[k].plcSize))]
  }

  /** Hands out the reply in `data` to the parameters named by `ids`, from slot
      `j` on; `stat` and `srd` are the positions of the next status word and of
      the next parameter's bytes. An id that is not registered is passed over
      without moving either. */
  function Deal(params: seq<Param>, count: nat, ids: seq<int>, j: nat, stat: nat, srd: nat, data: seq<byte>)
    : (r: seq<Param>)
    requires count <= |params| && j <= |ids|
    ensures |r| == |params|
    decreases |ids| - j
  {
    if j == |ids| then params
    else if !(0 <= ids[j] < count) then Deal(params, count, ids, j + 1, stat, srd, data)
    else
      Deal(Share(params, ids[j], stat, srd, data), count, ids, j + 1, stat + 4, srd + params[ids[j]].plcSize, data)
  }

  lemma {:induction false} DealTouches(params: seq<Param>, count: nat, ids: seq<int>, j: nat, stat: nat, srd: nat,
                                       data: seq<byte>)
    requires count <= |params| && j <= |ids|
    ensures forall k :: 0 <= k < |params| ==> Touched(params[k], Deal(params, count, ids, j, stat, srd, data)[k])
    decreases |ids| - j
  {
    if j < |ids| {
      if 0 <= ids[j] < count {
        var next := Share(params, ids[j], stat, srd, data);
        DealTouches(next, count, ids, j + 1, stat + 4, srd + params[ids[j]].plcSize, data);
        assert forall k :: 0 <= k < |params| ==> Touched(params[k], next[k]);
      } else {
        DealTouches(params, count, ids, j + 1, stat, srd, data);
      }
    }
  }

  function Poll(s: State, i: nat, data: seq<byte>): (r: State)
    requires Shape(s) && i < MAXBULK
    ensures Shape(r) && r == s.(params := r.params) && |r.params| == |s.params|
    ensures forall k :: 0 <= k < |s.params| ==> Touched(s.params[k], r.params[k])
  {
    var c := s.bulk[i];
    if c.cnt < RESERVED then s
    else
      DealTouches(s.params, s.count, c.paramID[..c.cnt], RESERVED, 4 * RESERVED,
                  4 * c.cnt + c.sum[0].size + c.sum[1].size, data);
      s.(params := Deal(s.params, s.count, c.paramID[..c.cnt], RESERVED, 4 * RESERVED,
                        4 * c.cnt + c.sum[0].size + c.sum[1].size, data))
  }

  // ----- runs -----

  datatype Step =
    | StepCreate(creation: Creation)
    | StepInvalidate(port: u16)
    | StepRefresh(port: u16, answers: nat -> Answers, notifyOk: bool)
    | StepSymbols(port: u16, answers: nat -> Answers, notifyOk: bool)
    | StepSupervise(index: nat, running: bool, answers: nat -> Answers, notifyOk: bool)
    | StepPoll(chunk: nat, data: seq<byte>)
    | StepAccess(param: nat, direct: Direct)
    | StepConnected(connected: bool)
    | StepStart

  function Apply(s: State, step: Step): (r: State)
    requires Shape(s)
    ensures Shape(r)
  {
    match step
    case StepCreate(c) => Create(s, c)
    case StepInvalidate(port) => Invalidate(s, port)
    case StepRefresh(port, answers, ok) => Refresh(s, port, answers, ok)
    case StepSymbols(port, answers, ok) => SymbolsChanged(s, port, answers, ok)
    case StepSupervise(i, running, answers, ok) =>
      if i < |s.ports| then SupervisePort(s, i, running, answers, ok) else s
    case StepPoll(i, data) => if i < MAXBULK && s.bulkOK then Poll(s, i, data) else s
    case StepAccess(k, d) => if k < |s.params| then Access(s, k, d) else s
    case StepConnected(on) => s.(connected := on)
    case StepStart => s.(bulkOK := true)
  }

  function Run(s: State, steps: seq<Step>): (r: State)
    requires Shape(s)
    ensures Shape(r)
  {
    if steps == [] then s else Apply(Run(s, steps[..|steps| - 1]), steps[|steps| - 1])
  }

  const BLANK_PARAM := Param(0, 0, false, false, false, FromPlc, 0, 0, false, 0, 0, false, false, 0, 0, [])

  /** The driver as its constructor leaves it: one default-access parameter, no chunk in use. */
  function Init(tableSize: nat, chunk: Chunk, defaultPort: u16): (s: State)
    requires tableSize >= 1 && ChunkShape(chunk)
    ensures Shape(s)
  {
    State(seq(tableSize, i => BLANK_PARAM), 1, ["Default access"], map[],
          seq(MAXBULK, i => chunk.(cnt := 0)), [], [PortInfo(defaultPort, false, false)], false, false, [])
  }
}
