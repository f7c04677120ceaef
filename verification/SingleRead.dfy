/** Reads of one parameter by itself beside the bulk reads: what they ask for,
    and what either leaves in the parameter, down to the variable in the PLC. */
module SingleRead {
  import opened Bytes
  import opened BulkModel
  import opened BulkInvariants
  import opened BulkProofs
  import BulkTheorems
  import opened BulkAccounts
  import opened SumRead

  /** What the server answers to a single read: at most as many bytes as asked for, or an error. */
  function SingleReply(srv: Server, r: Request): Option<seq<byte>> {
    if !Knows(srv, r) then None
    else Some(if r.size <= |ValueOf(srv, r)| then ValueOf(srv, r)[..r.size] else ValueOf(srv, r))
  }

  /** The data a poll of the chunk finds in the buffer when the server answers it. */
  function Answer(s: State, i: nat, srv: Server, buffer: seq<byte>): seq<byte>
    requires Shape(s) && i < MAXBULK && 0 <= s.bulk[i].readSize <= |buffer|
  {
    AfterCall(buffer, SumReply(srv, s.bulk[i].sum[..s.bulk[i].cnt]), s.bulk[i].readSize)
  }

  // ----- what is asked for -----

  /** A parameter in service is asked for in its slot exactly as by itself; only
      one that came from the dictionary has its size fetched again first. */
  lemma SlotIsReadRequest(s: State, k: nat, d: Direct)
    requires Inv(s) && 1 <= k < s.count && InService(s.log, k, s.params[k]) && !d.refused
    ensures var p := s.params[k]; var r := ReadRequest(p, d);
            && (r.Some? <==> p.absValid || (!p.isAdr && d.refetch.Some?))
            && (p.absValid ==> r == Some(SlotOf(s, p)))
            && (!p.absValid && r.Some? ==> r == Some(SlotOf(s, p).(size := d.refetch.value.size)))
  {
    assert SyncedAt(s, k);
    assert SizeKnown(s.log, k, s.params[k]);
  }

  /** A flagged bulk parameter that the dictionary, or the PLC, gives a size
      within the limit and, if it is a symbol, the handle `h`. */
  predicate GivenHandle(p: Param, a: Answers, h: u32, size: u32) {
    && p.refreshNeeded && p.source == FromPlc && p.isIOIntr && p.isBulkRead && a.bufferOk && size <= 0x10_0000
    && if p.isAdr then size == p.plcSize
       else match a.lookup
         case DictHit(n, given) => n == size && given == h
         case Asked(info, given) => info.Some? && info.value.size == size && given == Some(h)
  }

  /** `k` has a slot that asks for its address, or for what its handle names. */
  ghost predicate SlotAsks(t: State, k: nat) {
    && k < |t.params| && Shape(t)
    && var q := t.params[k];
       Assigned(q) && PlaceShape(q) && SlotOf(t, q).size == q.plcSize && AsksFor(SlotOf(t, q), q)
  }

  /** `q` is `p` but for its slot and its flag, which is down. */
  predicate OnlyPlaced(p: Param, q: Param) {
    q == p.(refreshNeeded := false, bulkIndex := q.bulkIndex, bulkOffset := q.bulkOffset)
  }

  lemma WrittenSlot(s: State, k: nat)
    requires Shape(s) && 1 <= k < s.count && Assigned(s.params[k])
    ensures SlotAsks(Complete(WriteSlot(s, k), k), k)
    ensures OnlyPlaced(s.params[k], Complete(WriteSlot(s, k), k).params[k])
  {
  }

  lemma PlacedParam(s: State, k: nat, a: Answers)
    requires Shape(s) && 1 <= k < s.count && !Assigned(s.params[k]) && !NoRoom(s, k)
    ensures var q := Place(s, k, a).params[k];
            q == s.params[k].(bulkIndex := q.bulkIndex, bulkOffset := q.bulkOffset) && Assigned(q)
  {
  }

  lemma DeliveredSlot(s: State, k: nat, a: Answers)
    requires Shape(s) && 1 <= k < s.count && !NoRoom(s, k) && s.params[k].isIOIntr && !Subscribes(s.params[k])
    ensures SlotAsks(Deliver(s, k, a).0, k) && OnlyPlaced(s.params[k], Deliver(s, k, a).0.params[k])
  {
    if Assigned(s.params[k]) {
      WrittenSlot(s, k);
    } else {
      PlacedParam(s, k, a);
      WrittenSlot(Place(s, k, a), k);
    }
  }

  /** A bulk parameter brought up to date asks for its size by the handle it was
      given, or for its address if it is an address command. */
  lemma UpdatedSlot(s: State, k: nat, a: Answers, h: u32, size: u32)
    requires Shape(s) && 1 <= k < s.count && GivenHandle(s.params[k], a, h, size) && !NoRoom(s, k)
    ensures var p := s.params[k]; var t := UpdateParam(s, k, a).0;
            && SlotAsks(t, k)
            && SlotOf(t, t.params[k])
               == (if p.isAdr then Request(p.absGroup, p.absOffset, size) else Request(0xF005, h, size))
            && t.params[k].plcSize == size && !t.params[k].refreshNeeded
            && (!p.isAdr ==> t.params[k].handle == h && t.params[k].handleValid)
  {
    var d := Described(s.params[k], a.lookup).value;
    var (q, gotHandle) := Handled(d, a.lookup);
    DescribedSeat(s.params[k], a.lookup);
    DeliveredSlot(SetParam(Describe(s, k, d), k, q), k, a);
  }

  // ----- what a single read leaves behind -----

  /** A read that got as many bytes as it asked for takes them over, any other
      leaves the value; the flag and all other parameters stay. */
  lemma SingleReadTakes(s: State, k: nat, d: Direct)
    requires Shape(s) && k < |s.params|
    ensures var r := ReadRequest(s.params[k], d); var t := Access(s, k, d); var q := t.params[k];
            && q.value == (if r.Some? && d.bytes.Some? && |d.bytes.value| == r.value.size then d.bytes.value
                           else s.params[k].value)
            && q.refreshNeeded == s.params[k].refreshNeeded
            && (r.Some? ==> AsksFor(r.value, q) && r.value.size == q.plcSize)
            && (r.Some? && !q.isAdr ==> q.handleValid)
            && (q.handle == s.params[k].handle || d.given == Some(q.handle))
            && (s.params[k].handleValid ==> q.handle == s.params[k].handle)
            && (forall l :: 0 <= l < |s.params| && l != k ==> t.params[l] == s.params[l])
  {
    if !d.refused {
      ReadRequestAt(s, k, d);
    }
  }

  // ----- from the variable in the PLC to the parameter -----

  /** `q` is what a bulk read of `size` bytes makes of `p` where the PLC holds
      `v`, or nothing that answers to the request. */
  predicate Reads(p: Param, q: Param, v: Option<seq<byte>>, size: nat) {
    && |q.value| == size
    && q == p.(value := q.value, refreshNeeded := p.refreshNeeded || v.None?)
    && forall n :: 0 <= n < size ==> q.value[n] == if v.Some? && n < |v.value| then v.value[n] else 0
  }

  /** What the PLC holds at an address, or behind a handle. */
  function HeldAt(srv: Server, group: u32, offset: u32): Option<seq<byte>> {
    if group == 0xF005 then HeldBy(srv, offset)
    else if (group, offset) in srv.byIndex then Some(srv.byIndex[(group, offset)]) else None
  }

  function HeldBy(srv: Server, handle: u32): Option<seq<byte>> {
    if handle in srv.byHandle then Some(srv.byHandle[handle]) else None
  }

  lemma ReadOneHeld(srv: Server, r: Request)
    ensures Knows(srv, r) <==> HeldAt(srv, r.group, r.offset).Some?
    ensures Knows(srv, r) ==> ValueOf(srv, r) == HeldAt(srv, r.group, r.offset).value
  {
  }

  lemma OwnerNamed(s: State, k: nat)
    requires Inv(s) && NoneLost(s) && 1 <= k < s.count && Assigned(s.params[k])
    ensures var p := s.params[k]; var c := s.bulk[p.bulkIndex];
            RESERVED <= p.bulkOffset < c.cnt && c.paramID[p.bulkOffset] == k && SlotOf(s, p) == c.sum[p.bulkOffset]
  {
    var p := s.params[k];
    assert OwnsSlot(p, s.bulk[p.bulkIndex]);
    BulkTheorems.SlotNamesItsOwner(s, p.bulkIndex, p.bulkOffset);
  }

  /** A polled parameter holds the bytes of the variable its slot asks for. */
  lemma PolledParam(s: State, k: nat, srv: Server, buffer: seq<byte>)
    requires Inv(s) && 1 <= k < s.count && Assigned(s.params[k]) && Decodable(s, s.params[k].bulkIndex)
    requires s.bulk[s.params[k].bulkIndex].readSize <= |buffer|
    ensures var p := s.params[k]; var i := p.bulkIndex; var r := SlotOf(s, p);
            Reads(p, Poll(s, i, Answer(s, i, srv, buffer)).params[k], HeldAt(srv, r.group, r.offset), r.size)
  {
    var i, j := s.params[k].bulkIndex, s.params[k].bulkOffset;
    OwnerNamed(s, k);
    BulkReadRefinesSingleReads(s, i, srv, buffer);
    var r := SlotOf(s, s.params[k]);
    assert s.bulk[i].sum[j] == r;
    assert SlotGiven(s, i, srv, Poll(s, i, Answer(s, i, srv, buffer)), j);
    forall n | 0 <= n < r.size
      ensures ReadOne(srv, r).data[n]
              == var v := HeldAt(srv, r.group, r.offset); if v.Some? && n < |v.value| then v.value[n] else 0
    {
      ReadOneMeans(srv, r, n);
    }
  }

  /** Brought up to date and polled, a parameter holds the first `size` bytes of
      the variable behind the handle it was given, or at its address. */
  lemma UpdatedThenPolled(s: State, k: nat, a: Answers, h: u32, size: u32, srv: Server, buffer: seq<byte>)
    requires Inv(s) && 1 <= k < s.count && GivenHandle(s.params[k], a, h, size) && !NoRoom(s, k)
    requires var t := UpdateParam(s, k, a).0; var i := t.params[k].bulkIndex;
             i >= 0 ==> Decodable(t, i) && t.bulk[i].readSize <= |buffer|
    ensures var p := s.params[k]; var t := UpdateParam(s, k, a).0; var i := t.params[k].bulkIndex;
            && 0 <= i < MAXBULK
            && Reads(t.params[k], Poll(t, i, Answer(t, i, srv, buffer)).params[k],
                     if p.isAdr then HeldAt(srv, p.absGroup, p.absOffset) else HeldBy(srv, h), size)
  {
    UpdatedSlot(s, k, a, h, size);
    UpdateKeepsInv(s, k, a);
    PolledParam(UpdateParam(s, k, a).0, k, srv, buffer);
  }

  /** A new table entry for an address command has the link's group, offset and size. */
  lemma AddressEntered(s: State, c: Creation)
    requires Shape(s) && c.parsed.Some? && c.parsed.value.isAdr && Create(s, c).count == s.count + 1
    ensures var q := c.parsed.value; var t := Create(s, c);
            && s.count < |t.params|
            && var p := t.params[s.count];
               p.isAdr && p.absValid && p.absGroup == q.absGroup && p.absOffset == q.absOffset && p.plcSize == q.size
  {
    var (t, entered) := Enter(s, c);
    BulkTheorems.StepCount(s, StepCreate(c));
    BulkTheorems.UpdateStays(t, s.count, c.answers);
  }

  lemma AddressKept(s: State, c: Creation, steps: seq<Step>)
    requires Shape(s) && c.parsed.Some? && c.parsed.value.isAdr && Create(s, c).count == s.count + 1
    ensures var q := c.parsed.value; var r := Run(Create(s, c), steps);
            && s.count < r.count <= |r.params|
            && var p := r.params[s.count];
               p.isAdr && p.absValid && p.absGroup == q.absGroup && p.absOffset == q.absOffset && p.plcSize == q.size
  {
    AddressEntered(s, c);
    BulkTheorems.AssignmentsNeverMove(Create(s, c), steps);
  }

  /** Over every run from its creation an address command in service that is
      polled holds the bytes at the group and the offset its link names. */
  lemma AddressThenPolled(s: State, c: Creation, steps: seq<Step>, srv: Server, buffer: seq<byte>)
    requires Inv(s) && c.parsed.Some? && c.parsed.value.isAdr && Create(s, c).count == s.count + 1
    requires var r := Run(Create(s, c), steps);
             && s.count < r.count <= |r.params| && InService(r.log, s.count, r.params[s.count])
             && Decodable(r, r.params[s.count].bulkIndex)
             && r.bulk[r.params[s.count].bulkIndex].readSize <= |buffer|
    ensures var q := c.parsed.value; var k := s.count; var r := Run(Create(s, c), steps); var i := r.params[k].bulkIndex;
            && SlotOf(r, r.params[k]) == Request(q.absGroup, q.absOffset, q.size)
            && Reads(r.params[k], Poll(r, i, Answer(r, i, srv, buffer)).params[k],
                     HeldAt(srv, q.absGroup, q.absOffset), q.size)
  {
    var k, r := s.count, Run(Create(s, c), steps);
    AddressKept(s, c, steps);
    PolledParam(r, k, srv, buffer);
    assert SyncedAt(r, k);
    assert SizeKnown(r.log, k, r.params[k]);
  }

  /** Of a parameter in service that has its own description, a single read and a
      bulk read answered by the same server leave the same behind where the
      variable is not shorter than the parameter. Where it is shorter the single
      read is refused and the bulk read fills up with zeros; where there is no
      variable only the bulk read raises the flag. */
  lemma BulkReadIsSingleRead(s: State, k: nat, d: Direct, srv: Server, buffer: seq<byte>)
    requires Inv(s) && 1 <= k < s.count && InService(s.log, k, s.params[k]) && s.params[k].absValid && !d.refused
    requires Decodable(s, s.params[k].bulkIndex) && s.bulk[s.params[k].bulkIndex].readSize <= |buffer|
    requires d.bytes == SingleReply(srv, SlotOf(s, s.params[k]))
    ensures var p := s.params[k]; var i, r := p.bulkIndex, SlotOf(s, p); var v := HeldAt(srv, r.group, r.offset);
            var one, bulk := Access(s, k, d).params[k], Poll(s, i, Answer(s, i, srv, buffer)).params[k];
            && (v.Some? && p.plcSize <= |v.value| ==> one == bulk && bulk == p.(value := v.value[..p.plcSize]))
            && (v.Some? && |v.value| < p.plcSize ==> one == p && bulk == p.(value := v.value + Zeros(p.plcSize - |v.value|)))
            && (v.None? ==> one == p && bulk == p.(value := Zeros(p.plcSize), refreshNeeded := true))
  {
    SlotIsReadRequest(s, k, d);
    PolledParam(s, k, srv, buffer);
    InServiceAccess(s, k, d);
    ReadOneHeld(srv, SlotOf(s, s.params[k]));
  }

  /** Only the value of a parameter in service that has its own description may change. */
  lemma InServiceAccess(s: State, k: nat, d: Direct)
    requires Inv(s) && 1 <= k < s.count && InService(s.log, k, s.params[k]) && s.params[k].absValid && !d.refused
    ensures var p := s.params[k];
            && p.plcSize == SlotOf(s, p).size && !p.refreshNeeded
            && Access(s, k, d).params[k]
               == if d.bytes.Some? && |d.bytes.value| == p.plcSize then p.(value := d.bytes.value) else p
  {
    assert SyncedAt(s, k);
    SlotIsReadRequest(s, k, d);
  }
}
