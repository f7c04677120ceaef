/** What every reachable state of the bulk-read index satisfies. */
module BulkInvariants {
  import opened Bytes
  import opened BulkModel

  /** Two four-byte time slots and at least one parameter. */
  predicate Opened(c: Chunk)
    requires ChunkShape(c)
  {
    RESERVED < c.cnt && c.sum[0].size == 4 && c.sum[1].size == 4
  }

  /** Used chunks come first, hold at least one parameter behind the two time
      slots, and a port opens a second chunk only once its first is full. */
  ghost predicate Packed(bulk: seq<Chunk>)
    requires forall i :: 0 <= i < |bulk| ==> ChunkShape(bulk[i])
  {
    && (forall i, j :: 0 <= i < j < |bulk| && bulk[j].cnt != 0 ==> bulk[i].cnt != 0)
    && (forall i :: 0 <= i < |bulk| && bulk[i].cnt != 0 ==> Opened(bulk[i]))
    && (forall i, j :: 0 <= i < j < |bulk| && bulk[j].cnt != 0 && bulk[i].amsPort == bulk[j].amsPort ==>
          bulk[i].cnt == BULKSIZ)
  }

  predicate Assigned(p: Param) {
    p.bulkIndex >= 0
  }

  /** The forward index of an assigned parameter names a slot whose reverse index names it back. */
  predicate OwnsSlot(p: Param, c: Chunk)
    requires ChunkShape(c)
  {
    && RESERVED <= p.bulkOffset < c.cnt
    && c.paramID[p.bulkOffset] == p.paramIndex
    && c.amsPort == p.amsPort
    && p.isIOIntr && p.isBulkRead && p.source == FromPlc
  }

  ghost predicate HasOwner(s: State, i: int, j: int)
    requires Shape(s)
  {
    exists k :: 1 <= k < s.count && Places(s.params[k], i, j)
  }

  ghost predicate Indexed(s: State)
    requires Shape(s)
  {
    && (forall k :: 1 <= k < s.count && Assigned(s.params[k]) ==>
          OwnsSlot(s.params[k], s.bulk[s.params[k].bulkIndex]))
    && (forall k, l :: 1 <= k < l < s.count && Assigned(s.params[k]) ==>
          !Places(s.params[l], s.params[k].bulkIndex, s.params[k].bulkOffset))
    && (forall i, j :: 0 <= i < MAXBULK && RESERVED <= j < s.bulk[i].cnt ==> HasOwner(s, i, j))
  }

  /** A table entry's asyn index is its position, shifted by the asyn
      parameters that were created but never registered. */
  ghost predicate Numbered(s: State)
    requires Shape(s)
  {
    && s.count <= |s.asynNames|
    && (forall k :: 0 <= k < s.count ==> k <= s.params[k].paramIndex <= k + |s.asynNames| - s.count)
  }

  /** Every asyn parameter created was also registered. */
  predicate NoneLost(s: State) {
    |s.asynNames| == s.count
  }

  /** The parameter's slot in the request. */
  function SlotOf(s: State, p: Param): Request
    requires Shape(s) && PlaceShape(p) && Assigned(p)
  {
    s.bulk[p.bulkIndex].sum[p.bulkOffset]
  }

  /** What happened to a parameter since its slot was last written: the size it
      was written with, whether it was subscribed to, and the size it was last
      described with after that, if it was. */
  datatype Since = Since(written: Option<u32>, subscribed: bool, sized: Option<u32>)

  function SinceWritten(log: seq<Event>, k: nat): Since {
    if log == [] then Since(None, false, None)
    else
      var before := SinceWritten(log[..|log| - 1], k);
      match log[|log| - 1]
      case Registered(l, _, _, size) => if l == k then Since(Some(size), false, None) else before
      case Subscribed(l) => if l == k then before.(subscribed := true) else before
      case Sized(l, size) => if l == k then before.(sized := Some(size)) else before
      case _ => before
  }

  /** The parameter was described with another size since its slot was last written. */
  predicate Moved(h: Since) {
    h.sized.Some? && h.sized != h.written
  }

  predicate Resized(log: seq<Event>, k: nat) {
    Moved(SinceWritten(log, k))
  }

  /** Not subscribed to, and not of another size. */
  predicate InStep(h: Since) {
    h.written.Some? && !h.subscribed && !Moved(h)
  }

  /** The size the slot was written with, or the parameter was described with after that. */
  function SizeOf(h: Since): Option<u32> {
    if h.sized.Some? then h.sized else h.written
  }

  predicate SizeKnown(log: seq<Event>, k: nat, p: Param) {
    SizeOf(SinceWritten(log, k)) == Some(p.plcSize)
  }

  /** Up to date, with nothing that moved it away from its slot. */
  predicate InService(log: seq<Event>, k: nat, p: Param) {
    Assigned(p) && !p.refreshNeeded && InStep(SinceWritten(log, k))
  }

  /** The request is for the parameter: by its address, or by its handle. */
  predicate AsksFor(r: Request, p: Param) {
    if p.isAdr then r.group == p.absGroup && r.offset == p.absOffset else r.group == 0xF005 && r.offset == p.handle
  }

  /** What is known of an assigned parameter that is not flagged. */
  predicate Tracked(h: Since, p: Param, slot: Request) {
    && (p.isAdr || p.handleValid)
    && (!h.subscribed ==> h.written.Some? && slot.size == h.written.value && AsksFor(slot, p))
  }

  predicate SyncedAt(s: State, k: nat)
    requires Shape(s) && 1 <= k < s.count
  {
    var p := s.params[k];
    Assigned(p) && !p.refreshNeeded ==> Tracked(SinceWritten(s.log, k), p, SlotOf(s, p))
  }

  ghost predicate Synced(s: State)
    requires Shape(s)
  {
    forall k :: 1 <= k < s.count ==> SyncedAt(s, k)
  }

  /** A slot holds the size it was last written with, and its owner, flagged or
      not, the one it was described with since; `except` is a slot still being filled. */
  ghost predicate WrittenExcept(s: State, except: nat)
    requires Shape(s)
  {
    forall k :: 1 <= k < s.count && k != except && Assigned(s.params[k]) ==>
      && SinceWritten(s.log, k).written == Some(SlotOf(s, s.params[k]).size)
      && SizeKnown(s.log, k, s.params[k])
  }

  /** No slot asks for more than the subscription limit; `except` is a slot still being filled. */
  ghost predicate SmallExcept(s: State, except: nat)
    requires Shape(s)
  {
    forall k :: 1 <= k < s.count && k != except && Assigned(s.params[k]) ==>
      SlotOf(s, s.params[k]).size <= SUBSCRIBE_LIMIT
  }

  // ----- counting -----

  function OnPort(ps: seq<Param>, port: u16): (r: seq<int>)
    ensures |r| == |ps|
  {
    seq(|ps|, k requires 0 <= k < |ps| => if Assigned(ps[k]) && ps[k].amsPort == port then 1 else 0)
  }

  /** Assigned parameters of the port among the registered ones. */
  function AssignedOn(s: State, port: u16): int
    requires Shape(s)
  {
    Total(OnPort(s.params[1..s.count], port))
  }

  function FillOf(c: Chunk, port: u16): int {
    if c.cnt != 0 && c.amsPort == port then c.cnt - RESERVED else 0
  }

  function Fills(bulk: seq<Chunk>, port: u16): (r: seq<int>)
    ensures |r| == |bulk|
  {
    seq(|bulk|, i requires 0 <= i < |bulk| => FillOf(bulk[i], port))
  }

  /** Parameter slots in use for the port. */
  function SlotsOn(bulk: seq<Chunk>, port: u16): int {
    Total(Fills(bulk, port))
  }

  ghost predicate Counted(s: State)
    requires Shape(s)
  {
    forall port: u16 :: AssignedOn(s, port) == SlotsOn(s.bulk, port)
  }

  // ----- history -----

  /** Parameter `k` completed an update and its port was not invalidated afterwards. */
  predicate FreshIn(log: seq<Event>, k: nat, port: u16) {
    log != [] &&
    match log[|log| - 1]
    case Completed(l) => l == k || FreshIn(log[..|log| - 1], k, port)
    case Invalidated(q) => !Covers(q, port) && FreshIn(log[..|log| - 1], k, port)
    case _ => FreshIn(log[..|log| - 1], k, port)
  }

  /** Reply bytes registered for slot `j` of chunk `i` since its port was last invalidated. */
  function RegisteredBytes(log: seq<Event>, i: nat, j: nat, port: u16): (r: int)
    ensures r >= 0
  {
    if log == [] then 0
    else
      var before := log[..|log| - 1];
      match log[|log| - 1]
      case Invalidated(q) => if Covers(q, port) then 0 else RegisteredBytes(before, i, j, port)
      case Registered(_, a, b, size) =>
        RegisteredBytes(before, i, j, port) + if a == i && b == j then size + STATUS_SIZE else 0
      case _ => RegisteredBytes(before, i, j, port)
  }

  function SlotBytes(log: seq<Event>, i: nat, port: u16, n: nat): (r: seq<int>)
    ensures |r| == n
  {
    seq(n, j requires 0 <= j < n => RegisteredBytes(log, i, j + RESERVED, port))
  }

  ghost predicate Fresh(s: State)
    requires Shape(s)
  {
    forall k :: 1 <= k < s.count && !s.params[k].refreshNeeded ==> FreshIn(s.log, k, s.params[k].amsPort)
  }

  /** The read size is the time slots' share plus what was registered since the last invalidation. */
  predicate ReadSizeAdds(log: seq<Event>, i: nat, c: Chunk) {
    c.cnt > RESERVED ==> c.readSize == TS_READ_SIZE + Total(SlotBytes(log, i, c.amsPort, c.cnt - RESERVED))
  }

  /** What was registered for the slot of a parameter that is not flagged, and
      not subscribed to, covers the slot's reply. */
  predicate ServiceCovered(log: seq<Event>, k: nat, p: Param) {
    var h := SinceWritten(log, k);
    Assigned(p) && p.bulkOffset >= 0 && !p.refreshNeeded && !h.subscribed && h.written.Some? ==>
      h.written.value as int + STATUS_SIZE <= RegisteredBytes(log, p.bulkIndex, p.bulkOffset, p.amsPort)
  }

  /** Only slots in use were ever registered. */
  ghost predicate LogInUse(log: seq<Event>, bulk: seq<Chunk>) {
    forall e :: e in log && e.Registered? ==> e.chunk < |bulk| && RESERVED <= e.slot < bulk[e.chunk].cnt
  }

  /** A slot was only ever registered for the parameter that owns it. */
  ghost predicate LogOwned(s: State)
    requires Shape(s)
  {
    forall e :: e in s.log && e.Registered? ==>
      1 <= e.param < s.count && Places(s.params[e.param], e.chunk, e.slot)
  }

  ghost predicate Accounted(s: State)
    requires Shape(s)
  {
    && (forall i :: 0 <= i < MAXBULK ==> ReadSizeAdds(s.log, i, s.bulk[i]))
    && (forall k :: 1 <= k < s.count ==> ServiceCovered(s.log, k, s.params[k]))
    && LogInUse(s.log, s.bulk) && LogOwned(s)
  }

  /** Where everything is; `except` is a slot still being filled. */
  ghost predicate Placed(s: State, except: nat)
    requires Shape(s)
  {
    Packed(s.bulk) && Indexed(s) && Numbered(s) && SmallExcept(s, except) && WrittenExcept(s, except) && Counted(s)
  }

  /** What is up to date. */
  ghost predicate Current(s: State)
    requires Shape(s)
  {
    Synced(s) && Fresh(s) && Accounted(s)
  }

  ghost predicate Inv(s: State) {
    Shape(s) && Placed(s, 0) && Current(s)
  }

  lemma LogSnoc(log: seq<Event>, e: Event)
    ensures (log + [e])[..|log|] == log && (log + [e])[|log|] == e
  {
  }

  lemma {:induction false} Unregistered(log: seq<Event>, i: nat, j: nat, port: u16)
    requires forall e :: e in log && e.Registered? ==> !(e.chunk == i && e.slot == j)
    ensures RegisteredBytes(log, i, j, port) == 0
  {
    if log != [] {
      var before := log[..|log| - 1];
      assert log[|log| - 1] in log;
      assert forall e :: e in before ==> e in log;
      Unregistered(before, i, j, port);
    }
  }

  lemma {:induction false} TotalZeros(xs: seq<int>)
    requires forall k :: 0 <= k < |xs| ==> xs[k] == 0
    ensures Total(xs) == 0
  {
    if xs != [] {
      TotalZeros(xs[..|xs| - 1]);
    }
  }
}
