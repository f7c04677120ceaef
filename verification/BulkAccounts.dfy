/** Reply-size accounting and freshness over whole runs. */
module BulkAccounts {
  import opened Bytes
  import opened BulkModel
  import opened BulkInvariants
  import opened BulkProofs
  import BulkTheorems

  /** The slot's owner is up to date and in step with its slot. */
  ghost predicate SlotServed(s: State, i: nat, j: int)
    requires Shape(s)
  {
    exists k :: 1 <= k < s.count && Places(s.params[k], i, j) && InService(s.log, k, s.params[k])
  }

  /** Status and data bytes of each parameter slot whose owner is in service. */
  ghost function ServedBytes(s: State, i: nat): (r: seq<int>)
    requires Shape(s) && i < MAXBULK && s.bulk[i].cnt > RESERVED
    ensures |r| == s.bulk[i].cnt - RESERVED
  {
    seq(s.bulk[i].cnt - RESERVED, j requires 0 <= j < s.bulk[i].cnt - RESERVED =>
      if SlotServed(s, i, j + RESERVED) then s.bulk[i].sum[j + RESERVED].size + STATUS_SIZE else 0)
  }

  /** Status and data bytes of every slot in the chunk. */
  function ReplyBytes(c: Chunk): seq<int>
    requires ChunkShape(c)
  {
    seq(c.cnt, j requires 0 <= j < c.cnt => c.sum[j].size + STATUS_SIZE)
  }

  lemma ServiceIsRegistered(s: State, i: nat, j: nat)
    requires Inv(s) && i < MAXBULK && RESERVED <= j < s.bulk[i].cnt && SlotServed(s, i, j)
    ensures s.bulk[i].sum[j].size as int + STATUS_SIZE <= RegisteredBytes(s.log, i, j, s.bulk[i].amsPort)
  {
    var k :| 1 <= k < s.count && Places(s.params[k], i, j) && InService(s.log, k, s.params[k]);
    assert OwnsSlot(s.params[k], s.bulk[i]);
    assert ServiceCovered(s.log, k, s.params[k]);
  }

  /** The read size of a chunk is never less than the parameters in service
      need, and is exactly that when and only when each of them was registered
      once since the last invalidation and no other slot was. */
  lemma ReadSizeCoversService(s: State, i: nat)
    requires Inv(s) && i < MAXBULK && s.bulk[i].cnt > RESERVED
    ensures TS_READ_SIZE + Total(ServedBytes(s, i)) <= s.bulk[i].readSize
    ensures s.bulk[i].readSize == TS_READ_SIZE + Total(ServedBytes(s, i))
            <==> SlotBytes(s.log, i, s.bulk[i].amsPort, s.bulk[i].cnt - RESERVED) == ServedBytes(s, i)
  {
    var served := ServedBytes(s, i);
    var bytes := SlotBytes(s.log, i, s.bulk[i].amsPort, s.bulk[i].cnt - RESERVED);
    assert ReadSizeAdds(s.log, i, s.bulk[i]);
    forall j | 0 <= j < |served| ensures served[j] <= bytes[j] {
      assert bytes[j] == RegisteredBytes(s.log, i, j + RESERVED, s.bulk[i].amsPort);
      if SlotServed(s, i, j + RESERVED) {
        ServiceIsRegistered(s, i, j + RESERVED);
      }
    }
    TotalCompare(served, bytes);
  }

  lemma {:induction false} TotalSplit(xs: seq<int>, n: nat)
    requires n <= |xs|
    ensures Total(xs) == Total(xs[..n]) + Total(xs[n..])
  {
    if n == |xs| {
      assert xs[..n] == xs;
    } else {
      var init := xs[..|xs| - 1];
      TotalSplit(init, n);
      assert init[..n] == xs[..n] && init[n..] == xs[n..][..|xs| - 1 - n];
    }
  }

  lemma TimeSlotBytes(c: Chunk)
    requires ChunkShape(c) && Opened(c)
    ensures Total(ReplyBytes(c)) == TS_READ_SIZE + Total(ReplyBytes(c)[RESERVED..])
  {
    TotalSplit(ReplyBytes(c), RESERVED);
    assert ReplyBytes(c)[..RESERVED] == [8, 8];
    TotalSnoc([8], 8);
    TotalSnoc([], 8);
  }

  /** Once every parameter of the chunk is in service the read size covers the whole reply. */
  lemma ReadSizeCoversReply(s: State, i: nat)
    requires Inv(s) && i < MAXBULK && s.bulk[i].cnt > RESERVED
    requires forall j :: RESERVED <= j < s.bulk[i].cnt ==> SlotServed(s, i, j)
    ensures Total(ReplyBytes(s.bulk[i])) == TS_READ_SIZE + Total(ServedBytes(s, i))
    ensures Total(ReplyBytes(s.bulk[i])) <= s.bulk[i].readSize
  {
    ReadSizeCoversService(s, i);
    assert Opened(s.bulk[i]);
    TimeSlotBytes(s.bulk[i]);
    AllServed(s, i);
  }

  lemma AllServed(s: State, i: nat)
    requires Shape(s) && i < MAXBULK && s.bulk[i].cnt > RESERVED
    requires forall j :: RESERVED <= j < s.bulk[i].cnt ==> SlotServed(s, i, j)
    ensures ReplyBytes(s.bulk[i])[RESERVED..] == ServedBytes(s, i)
  {
  }

  // ----- what is missing and what is registered twice -----

  /** The slot was not written since its port was last invalidated. */
  predicate Unwritten(s: State, i: nat, j: nat)
    requires Shape(s) && i < MAXBULK
  {
    RegisteredBytes(s.log, i, j, s.bulk[i].amsPort) == 0
  }

  function SlotReply(s: State, i: nat, j: nat): int
    requires Shape(s) && i < MAXBULK && j < s.bulk[i].cnt
  {
    s.bulk[i].sum[j].size + STATUS_SIZE
  }

  /** Reply bytes of the slots not written since the last invalidation. */
  function Missing(s: State, i: nat): (r: seq<int>)
    requires Shape(s) && i < MAXBULK && s.bulk[i].cnt > RESERVED
    ensures |r| == s.bulk[i].cnt - RESERVED
  {
    seq(s.bulk[i].cnt - RESERVED, j requires 0 <= j < s.bulk[i].cnt - RESERVED =>
      if Unwritten(s, i, j + RESERVED) then SlotReply(s, i, j + RESERVED) else 0)
  }

  /** What slots written more than once since then were counted for beyond their reply. */
  function Surplus(s: State, i: nat): (r: seq<int>)
    requires Shape(s) && i < MAXBULK && s.bulk[i].cnt > RESERVED
    ensures |r| == s.bulk[i].cnt - RESERVED
  {
    seq(s.bulk[i].cnt - RESERVED, j requires 0 <= j < s.bulk[i].cnt - RESERVED =>
      if Unwritten(s, i, j + RESERVED) then 0
      else RegisteredBytes(s.log, i, j + RESERVED, s.bulk[i].amsPort) - SlotReply(s, i, j + RESERVED))
  }

  lemma {:induction false} TotalCombine(xs: seq<int>, ys: seq<int>, zs: seq<int>, ws: seq<int>)
    requires |xs| == |ys| == |zs| == |ws|
    requires forall k :: 0 <= k < |xs| ==> xs[k] == ys[k] - zs[k] + ws[k]
    ensures Total(xs) == Total(ys) - Total(zs) + Total(ws)
  {
    if xs != [] {
      var n := |xs| - 1;
      TotalCombine(xs[..n], ys[..n], zs[..n], ws[..n]);
    }
  }

  lemma SlotBalance(s: State, i: nat, j: nat)
    requires Shape(s) && i < MAXBULK && RESERVED <= j < s.bulk[i].cnt
    ensures var reply := SlotReply(s, i, j); var bytes := RegisteredBytes(s.log, i, j, s.bulk[i].amsPort);
            && reply > 0
            && ReplyBytes(s.bulk[i])[RESERVED..][j - RESERVED] == reply
            && Missing(s, i)[j - RESERVED] == (if Unwritten(s, i, j) then reply else 0)
            && Surplus(s, i)[j - RESERVED] == (if Unwritten(s, i, j) then 0 else bytes - reply)
  {
    assert j - RESERVED + RESERVED == j;
  }

  /** In every reachable state the read size is the reply's length, less what is
      missing, and more by what was counted again. */
  lemma ReadSizeBalance(s: State, i: nat)
    requires Inv(s) && i < MAXBULK && s.bulk[i].cnt > RESERVED
    ensures s.bulk[i].readSize == Total(ReplyBytes(s.bulk[i])) - Total(Missing(s, i)) + Total(Surplus(s, i))
  {
    assert Opened(s.bulk[i]) && ReadSizeAdds(s.log, i, s.bulk[i]);
    TimeSlotBytes(s.bulk[i]);
    BytesBalance(s, i);
  }

  lemma BytesBalance(s: State, i: nat)
    requires Shape(s) && i < MAXBULK && s.bulk[i].cnt > RESERVED
    ensures Total(SlotBytes(s.log, i, s.bulk[i].amsPort, s.bulk[i].cnt - RESERVED))
            == Total(ReplyBytes(s.bulk[i])[RESERVED..]) - Total(Missing(s, i)) + Total(Surplus(s, i))
  {
    var bytes := SlotBytes(s.log, i, s.bulk[i].amsPort, s.bulk[i].cnt - RESERVED);
    var replies := ReplyBytes(s.bulk[i])[RESERVED..];
    var missing, surplus := Missing(s, i), Surplus(s, i);
    forall j | 0 <= j < |bytes| ensures bytes[j] == replies[j] - missing[j] + surplus[j] {
      SlotBalance(s, i, j + RESERVED);
    }
    TotalCombine(bytes, replies, missing, surplus);
  }

  /** What was written last is part of what was registered since the invalidation, if anything was. */
  lemma {:induction false} WrittenLastCounts(log: seq<Event>, k: nat, i: nat, j: nat, port: u16)
    requires forall e :: e in log && e.Registered? ==> (e.param == k <==> e.chunk == i && e.slot == j)
    requires RegisteredBytes(log, i, j, port) != 0
    ensures var w := SinceWritten(log, k).written;
            w.Some? && w.value as int + STATUS_SIZE <= RegisteredBytes(log, i, j, port)
  {
    var before := log[..|log| - 1];
    assert log[|log| - 1] in log && forall e :: e in before ==> e in log;
    if RegisteredBytes(before, i, j, port) != 0 {
      forall e | e in before && e.Registered? ensures e.param == k <==> e.chunk == i && e.slot == j {
        assert e in log;
      }
      WrittenLastCounts(before, k, i, j, port);
    }
  }

  lemma OneOwner(s: State, i: nat, j: nat, k: nat)
    requires Inv(s) && i < MAXBULK && 1 <= k < s.count && Places(s.params[k], i, j)
    ensures forall l :: 1 <= l < s.count && Places(s.params[l], i, j) ==> l == k
  {
    assert Assigned(s.params[k]);
  }

  lemma SurplusAt(s: State, i: nat, j: nat)
    requires Inv(s) && i < MAXBULK && RESERVED <= j < s.bulk[i].cnt && !Unwritten(s, i, j)
    ensures SlotReply(s, i, j) <= RegisteredBytes(s.log, i, j, s.bulk[i].amsPort)
  {
    assert HasOwner(s, i, j);
    var k :| 1 <= k < s.count && Places(s.params[k], i, j);
    forall e | e in s.log && e.Registered? ensures e.param == k <==> e.chunk == i && e.slot == j {
      assert Places(s.params[e.param], e.chunk, e.slot);
      OneOwner(s, i, j, k);
    }
    WrittenLastCounts(s.log, k, i, j, s.bulk[i].amsPort);
  }

  lemma {:induction false} SomePositive(xs: seq<int>)
    requires forall k :: 0 <= k < |xs| ==> xs[k] >= 0
    ensures Total(xs) >= 0
    ensures Total(xs) > 0 <==> exists k :: 0 <= k < |xs| && xs[k] > 0
  {
    if xs != [] {
      SomePositive(xs[..|xs| - 1]);
    }
  }

  /** The read size falls short of the reply exactly when the slots not written
      since the invalidation outweigh what was counted again; never, if there is
      no such slot. */
  lemma ReadSizeShortIff(s: State, i: nat)
    requires Inv(s) && i < MAXBULK && s.bulk[i].cnt > RESERVED
    ensures s.bulk[i].readSize < Total(ReplyBytes(s.bulk[i])) <==> Total(Surplus(s, i)) < Total(Missing(s, i))
    ensures 0 <= Total(Surplus(s, i)) && 0 <= Total(Missing(s, i))
    ensures Total(Missing(s, i)) > 0 <==> exists j :: RESERVED <= j < s.bulk[i].cnt && Unwritten(s, i, j)
  {
    ReadSizeBalance(s, i);
    forall k | 0 <= k < |Surplus(s, i)| ensures Surplus(s, i)[k] >= 0 {
      SlotBalance(s, i, k + RESERVED);
      if !Unwritten(s, i, k + RESERVED) {
        SurplusAt(s, i, k + RESERVED);
      }
    }
    SomePositive(Surplus(s, i));
    MissingSome(s, i);
  }

  lemma MissingSome(s: State, i: nat)
    requires Shape(s) && i < MAXBULK && s.bulk[i].cnt > RESERVED
    ensures Total(Missing(s, i)) >= 0
    ensures Total(Missing(s, i)) > 0 <==> exists j :: RESERVED <= j < s.bulk[i].cnt && Unwritten(s, i, j)
  {
    var missing := Missing(s, i);
    forall j | RESERVED <= j < s.bulk[i].cnt
      ensures missing[j - RESERVED] >= 0 && (missing[j - RESERVED] > 0 <==> Unwritten(s, i, j))
    {
      SlotBalance(s, i, j);
    }
    forall k | 0 <= k < |missing| ensures missing[k] >= 0 {
      assert missing[k + RESERVED - RESERVED] >= 0;
    }
    SomePositive(missing);
    if k :| 0 <= k < |missing| && missing[k] > 0 {
      assert Unwritten(s, i, k + RESERVED);
    }
  }

  // ----- runs in which no slot fails -----

  /** What is registered for a slot is exactly what its owner needs now. */
  ghost predicate ExactFor(log: seq<Event>, k: nat, p: Param) {
    Assigned(p) && p.bulkOffset >= 0 ==>
      RegisteredBytes(log, p.bulkIndex, p.bulkOffset, p.amsPort)
      == if InService(log, k, p) then p.plcSize as int + STATUS_SIZE else 0
  }

  /** For all parameters of the port, or of all ports. */
  ghost predicate Exact(s: State, on: u16)
    requires Shape(s)
  {
    forall k :: 1 <= k < s.count && Covers(on, s.params[k].amsPort) ==> ExactFor(s.log, k, s.params[k])
  }

  lemma ExactSlot(s: State, on: u16, i: nat, j: nat)
    requires Inv(s) && Exact(s, on) && i < MAXBULK && RESERVED <= j < s.bulk[i].cnt && Covers(on, s.bulk[i].amsPort)
    ensures RegisteredBytes(s.log, i, j, s.bulk[i].amsPort)
            == if SlotServed(s, i, j) then s.bulk[i].sum[j].size as int + STATUS_SIZE else 0
  {
    assert HasOwner(s, i, j);
    var k :| 1 <= k < s.count && Places(s.params[k], i, j);
    assert OwnsSlot(s.params[k], s.bulk[i]) && ExactFor(s.log, k, s.params[k]);
    if SlotServed(s, i, j) {
      var l :| 1 <= l < s.count && Places(s.params[l], i, j) && InService(s.log, l, s.params[l]);
      assert OwnsSlot(s.params[l], s.bulk[i]) && ExactFor(s.log, l, s.params[l]);
      assert SyncedAt(s, l);
    }
  }

  lemma ExactReadSize(s: State, on: u16, i: nat)
    requires Inv(s) && Exact(s, on) && i < MAXBULK && s.bulk[i].cnt > RESERVED && Covers(on, s.bulk[i].amsPort)
    ensures s.bulk[i].readSize == TS_READ_SIZE + Total(ServedBytes(s, i))
  {
    ReadSizeCoversService(s, i);
    var bytes := SlotBytes(s.log, i, s.bulk[i].amsPort, s.bulk[i].cnt - RESERVED);
    forall j | 0 <= j < |bytes| ensures bytes[j] == ServedBytes(s, i)[j] {
      ExactSlot(s, on, i, j + RESERVED);
    }
  }

  lemma CompleteKeepsExact(s: State, on: u16, k: nat)
    requires Shape(s) && 1 <= k < s.count
    requires forall l :: 1 <= l < s.count && l != k && Covers(on, s.params[l].amsPort) ==> ExactFor(s.log, l, s.params[l])
    requires Covers(on, s.params[k].amsPort) ==> ExactFor(s.log, k, s.params[k].(refreshNeeded := false))
    ensures Exact(Complete(s, k), on)
  {
    LogFacts(s.log, Completed(k));
    forall l | 1 <= l < s.count && Covers(on, s.params[l].amsPort)
      ensures ExactFor(Complete(s, k).log, l, Complete(s, k).params[l])
    {
      assert l != k ==> ExactFor(s.log, l, s.params[l]);
    }
  }

  lemma PlaceKeepsExact(s: State, on: u16, k: nat, a: Answers)
    requires Inv(s) && Exact(s, on) && CanPlace(s, k)
    ensures Exact(Place(s, k, a), on)
  {
    var t := Place(s, k, a);
    var i := t.params[k].bulkIndex;
    assert s.bulk[i].cnt != 0 ==> Opened(s.bulk[i]);
    Unregistered(s.log, i, t.params[k].bulkOffset, t.params[k].amsPort);
    forall l | 1 <= l < s.count && Covers(on, t.params[l].amsPort) ensures ExactFor(t.log, l, t.params[l]) {
      assert ExactFor(s.log, l, s.params[l]);
    }
  }

  lemma WriteKeepsExact(s: State, on: u16, k: nat)
    requires Shape(s) && Indexed(s) && Exact(s, on) && CanWrite(s, k)
    ensures var t := WriteSlot(s, k);
            && (forall l :: 1 <= l < t.count && l != k && Covers(on, t.params[l].amsPort) ==>
                  ExactFor(t.log, l, t.params[l]))
            && (Covers(on, t.params[k].amsPort) ==> ExactFor(t.log, k, t.params[k].(refreshNeeded := false)))
  {
    var t := WriteSlot(s, k);
    var p := s.params[k];
    LogFacts(s.log, Registered(k, p.bulkIndex, p.bulkOffset, p.plcSize));
    assert Covers(on, p.amsPort) ==> ExactFor(s.log, k, p);
    forall l | 1 <= l < t.count && l != k && Covers(on, t.params[l].amsPort) ensures ExactFor(t.log, l, t.params[l]) {
      assert ExactFor(s.log, l, s.params[l]);
      if Assigned(s.params[l]) {
        WriteKeepsOthers(s, k, l);
      }
    }
  }

  lemma AddKeepsExact(s: State, on: u16, k: nat, a: Answers)
    requires Inv(s) && Exact(s, on) && 1 <= k < s.count && !NoRoom(s, k)
    requires s.params[k].refreshNeeded && s.params[k].plcSize <= SUBSCRIBE_LIMIT
    requires s.params[k].isIOIntr && s.params[k].isBulkRead && s.params[k].source == FromPlc
    ensures Exact(Complete(AddToBulk(s, k, a), k), on)
  {
    if Assigned(s.params[k]) {
      WriteKeepsExact(s, on, k);
    } else {
      PlaceKeepsInv(s, k, a);
      PlaceKeepsExact(s, on, k, a);
      WriteKeepsExact(Place(s, k, a), on, k);
    }
    CompleteKeepsExact(AddToBulk(s, k, a), on, k);
  }

  /** A flagged parameter that is described anew, subscribed to or fetched again. */
  lemma AsideKeepsExact(s: State, t: State, on: u16, k: nat, e: Event)
    requires Shape(s) && Shape(t) && Exact(s, on) && 1 <= k < s.count && Aside(e) && e.param == k
    requires t.count == s.count && |t.params| == |s.params| && s.params[k].refreshNeeded && t.params[k].refreshNeeded
    requires t.params == s.params[k := t.params[k]] && SameSeat(s.params[k], t.params[k]) && t.log == s.log + [e]
    ensures Exact(t, on)
  {
    LogFacts(s.log, e);
    forall l | 1 <= l < s.count && Covers(on, t.params[l].amsPort) ensures ExactFor(t.log, l, t.params[l]) {
      assert ExactFor(s.log, l, s.params[l]);
    }
  }

  lemma RefetchKeepsExact(s: State, on: u16, k: nat, info: Option<SymInfo>)
    requires Inv(s) && Exact(s, on) && 1 <= k < s.count && s.params[k].refreshNeeded
    ensures Exact(Refetch(s, k, info).0, on)
  {
    if LacksInfo(s.params[k]) && info.Some? {
      AsideKeepsExact(s, Refetch(s, k, info).0, on, k, Sized(k, info.value.size));
    }
  }

  lemma SubscribeKeepsExact(s: State, on: u16, k: nat, a: Answers)
    requires Inv(s) && Exact(s, on) && 1 <= k < s.count && s.params[k].refreshNeeded
    ensures var (t, subscribed) := Subscribe(s, k, a);
            Exact(t, on) && (subscribed ==> Exact(Complete(t, k), on))
  {
    var (t, informed) := Refetch(s, k, a.refetch);
    RefetchKeepsFlagged(s, k, a.refetch);
    RefetchKeepsExact(s, on, k, a.refetch);
    if informed && a.subscribeOk {
      var u := Subscribe(s, k, a).0;
      AsideKeepsExact(t, u, on, k, Subscribed(k));
      LogFacts(t.log, Subscribed(k));
      assert Covers(on, u.params[k].amsPort) ==> ExactFor(u.log, k, u.params[k]);
      CompleteKeepsExact(u, on, k);
    }
  }

  lemma DeliverKeepsExact(s: State, on: u16, k: nat, a: Answers)
    requires Inv(s) && Exact(s, on) && 1 <= k < s.count && s.params[k].refreshNeeded && s.params[k].source == FromPlc
    ensures Exact(Deliver(s, k, a).0, on)
  {
    var p := s.params[k];
    if Assigned(p) {
      OnlyPlcInputsAssigned(s, k);
    }
    if !p.isIOIntr {
      CompleteKeepsExact(s, on, k);
    } else if Subscribes(p) {
      SubscribeKeepsExact(s, on, k, a);
    } else if !NoRoom(s, k) {
      AddKeepsExact(s, on, k, a);
    }
  }

  lemma DescribeKeepsExact(s: State, on: u16, k: nat, q: Param)
    requires Shape(s) && Exact(s, on) && 1 <= k < s.count && s.params[k].refreshNeeded && q.refreshNeeded
    requires SameSeat(s.params[k], q) && PlaceShape(q)
    ensures Exact(Describe(s, k, q), on)
  {
    RehandleKeepsExact(s, on, k, q);
    if !q.isAdr {
      AsideKeepsExact(s, Describe(s, k, q), on, k, Sized(k, q.plcSize));
    }
  }

  lemma RehandleKeepsExact(s: State, on: u16, k: nat, q: Param)
    requires Shape(s) && Exact(s, on) && 1 <= k < s.count && s.params[k].refreshNeeded && q.refreshNeeded
    requires SameSeat(s.params[k], q) && PlaceShape(q)
    ensures Exact(SetParam(s, k, q), on)
  {
    forall l | 1 <= l < s.count && Covers(on, SetParam(s, k, q).params[l].amsPort)
      ensures ExactFor(s.log, l, SetParam(s, k, q).params[l])
    {
      assert ExactFor(s.log, l, s.params[l]);
    }
  }

  lemma UpdateFromPlcKeepsExact(s: State, on: u16, k: nat, a: Answers)
    requires Inv(s) && Exact(s, on) && 1 <= k < s.count && s.params[k].refreshNeeded && s.params[k].source == FromPlc
    ensures Exact(UpdateFromPlc(s, k, a).0, on)
  {
    var p := s.params[k];
    if Described(p, a.lookup).Some? {
      DescribedSeat(p, a.lookup);
      var d := Described(p, a.lookup).value;
      var (h, gotHandle) := Handled(d, a.lookup);
      var t := Describe(s, k, d);
      DescribeKeepsInv(s, k, d);
      RehandleKeepsInv(t, k, h);
      DescribeKeepsExact(s, on, k, d);
      RehandleKeepsExact(t, on, k, h);
      if gotHandle {
        DeliverKeepsExact(SetParam(t, k, h), on, k, a);
      }
    }
  }

  lemma UpdateKeepsExact(s: State, on: u16, k: nat, a: Answers)
    requires Inv(s) && Exact(s, on) && 1 <= k < s.count && s.params[k].refreshNeeded
    ensures Exact(UpdateParam(s, k, a).0, on)
  {
    if s.params[k].source == FromPlc {
      UpdateFromPlcKeepsExact(s, on, k, a);
    } else {
      LocalUnassigned(s, k);
      CompleteKeepsExact(s, on, k);
    }
  }

  lemma {:induction false} RefreshKeepsExact(s: State, on: u16, port: u16, answers: nat -> Answers, k: nat)
    requires Inv(s) && Exact(s, on) && 1 <= k <= s.count
    ensures Exact(RefreshFrom(s, port, answers, k), on)
    decreases s.count - k
  {
    if k < s.count {
      var update := Covers(port, s.params[k].amsPort) && s.params[k].refreshNeeded;
      if update {
        UpdateKeepsInv(s, k, answers(k));
        UpdateKeepsExact(s, on, k, answers(k));
      }
      RefreshKeepsExact(if update then UpdateParam(s, k, answers(k)).0 else s, on, port, answers, k + 1);
    }
  }

  lemma InvalidateKeepsExact(s: State, on: u16, port: u16)
    requires Shape(s) && Exact(s, on)
    ensures Exact(Invalidate(s, port), on)
  {
    var t := Invalidate(s, port);
    LogFacts(s.log, Invalidated(port));
    forall k | 1 <= k < s.count && Covers(on, t.params[k].amsPort) ensures ExactFor(t.log, k, t.params[k]) {
      assert ExactFor(s.log, k, s.params[k]);
    }
  }

  /** An invalidation makes the accounts of its own port exact, whatever they were. */
  lemma InvalidateMakesExact(s: State, port: u16)
    requires Shape(s)
    ensures Exact(Invalidate(s, port), port)
  {
    LogFacts(s.log, Invalidated(port));
  }

  /** The step raises no flag over a failed slot, and fetches no parameter's
      description again with another size than its slot was written with. */
  ghost predicate Quiet(s: State, step: Step)
    requires Shape(s)
  {
    match step
    case StepPoll(_, _) =>
      forall k :: 1 <= k < s.count ==> Apply(s, step).params[k].refreshNeeded == s.params[k].refreshNeeded
    case StepAccess(k, d) =>
      k < |s.params| && LacksInfo(s.params[k]) && d.refetch.Some? ==> d.refetch.value.size == s.params[k].plcSize
    case _ => true
  }

  lemma EnterKeepsExact(s: State, on: u16, c: Creation)
    requires Inv(s) && Exact(s, on)
    ensures Exact(Enter(s, c).0, on)
  {
    var t := Enter(s, c).0;
    forall k | 1 <= k < t.count && Covers(on, t.params[k].amsPort) ensures ExactFor(t.log, k, t.params[k]) {
      assert k < s.count ==> ExactFor(s.log, k, s.params[k]);
    }
  }

  lemma CreateKeepsExact(s: State, on: u16, c: Creation)
    requires Inv(s) && Exact(s, on)
    ensures Exact(Create(s, c), on)
  {
    var (t, entered) := Enter(s, c);
    EnterKeepsInv(s, c);
    EnterKeepsExact(s, on, c);
    if entered {
      UpdateKeepsExact(t, on, s.count, c.answers);
    }
  }

  lemma PollKeepsExact(s: State, on: u16, i: nat, data: seq<byte>)
    requires Inv(s) && Exact(s, on) && i < MAXBULK && s.bulkOK && Quiet(s, StepPoll(i, data))
    ensures Exact(Poll(s, i, data), on)
  {
    var t := Poll(s, i, data);
    forall k | 1 <= k < s.count && Covers(on, t.params[k].amsPort) ensures ExactFor(t.log, k, t.params[k]) {
      assert Touched(s.params[k], t.params[k]);
      assert ExactFor(s.log, k, s.params[k]);
    }
  }

  lemma SameSizeKeepsExact(s: State, on: u16, k: nat, info: SymInfo)
    requires Inv(s) && Exact(s, on) && k < |s.params| && info.size == s.params[k].plcSize
    ensures Exact(Refetch(s, k, Some(info)).0, on)
  {
    var t := Refetch(s, k, Some(info)).0;
    LogFacts(s.log, Sized(k, info.size));
    forall l | 1 <= l < s.count && Covers(on, t.params[l].amsPort) ensures ExactFor(t.log, l, t.params[l]) {
      assert ExactFor(s.log, l, s.params[l]) && SyncedAt(s, l);
    }
  }

  lemma AccessKeepsExact(s: State, on: u16, k: nat, d: Direct)
    requires Inv(s) && Exact(s, on) && k < |s.params| && Quiet(s, StepAccess(k, d))
    ensures Exact(Access(s, k, d), on)
  {
    var t := Refetch(s, k, d.refetch).0;
    if LacksInfo(s.params[k]) && d.refetch.Some? {
      SameSizeKeepsExact(s, on, k, d.refetch.value);
    }
    AnsweredSeat(t.params[k], d);
    var r := Access(s, k, d);
    forall l | 1 <= l < r.count && Covers(on, r.params[l].amsPort) ensures ExactFor(r.log, l, r.params[l]) {
      assert ExactFor(t.log, l, t.params[l]);
    }
  }

  lemma StepKeepsExact(s: State, on: u16, step: Step)
    requires Inv(s) && Exact(s, on) && Quiet(s, step)
    ensures Exact(Apply(s, step), on)
  {
    match step
    case StepCreate(c) => CreateKeepsExact(s, on, c);
    case StepInvalidate(port) => InvalidateKeepsExact(s, on, port);
    case StepRefresh(port, answers, ok) => RefreshKeepsExact(s, on, port, answers, 1);
    case StepSymbols(port, answers, ok) =>
      InvalidateKeepsInv(s, port);
      InvalidateKeepsExact(s, on, port);
      RefreshKeepsExact(Invalidate(s, port), on, port, answers, 1);
    case StepSupervise(i, running, answers, ok) =>
      if i < |s.ports| {
        SuperviseKeepsExact(s, on, i, running, answers, ok);
      }
    case StepPoll(i, data) =>
      if i < MAXBULK && s.bulkOK {
        PollKeepsExact(s, on, i, data);
      }
    case StepAccess(k, d) =>
      if k < |s.params| {
        AccessKeepsExact(s, on, k, d);
      }
    case StepConnected(_) =>
    case StepStart =>
  }

  lemma SuperviseKeepsExact(s: State, on: u16, i: nat, running: bool, answers: nat -> Answers, ok: bool)
    requires Inv(s) && Exact(s, on) && i < |s.ports|
    ensures Exact(SupervisePort(s, i, running, answers, ok), on)
  {
    var port := s.ports[i];
    var seen := s.(ports := s.ports[i := port.(connected := running)]);
    OtherFieldsFree(s, seen);
    RefreshKeepsExact(seen, on, port.amsPort, answers, 1);
    var renewed := if running && port.refreshNeeded then Refresh(seen, port.amsPort, answers, ok) else seen;
    InvalidateKeepsExact(renewed, on, port.amsPort);
  }

  ghost predicate QuietRun(s: State, steps: seq<Step>)
    requires Shape(s)
  {
    forall n :: 0 <= n < |steps| ==> Quiet(Run(s, steps[..n]), steps[n])
  }

  /** In a run without failing slots and changed sizes every chunk's read size is
      exact throughout, from when its port was last invalidated at the latest. */
  lemma {:induction false} QuietRunIsExact(s: State, on: u16, steps: seq<Step>)
    requires Inv(s) && Exact(s, on) && QuietRun(s, steps)
    ensures Inv(Run(s, steps)) && Exact(Run(s, steps), on)
    ensures forall i :: 0 <= i < MAXBULK && Run(s, steps).bulk[i].cnt > RESERVED
                        && Covers(on, Run(s, steps).bulk[i].amsPort) ==>
              Run(s, steps).bulk[i].readSize == TS_READ_SIZE + Total(ServedBytes(Run(s, steps), i))
  {
    RunKeepsInv(s, steps);
    if steps != [] {
      var init := steps[..|steps| - 1];
      forall n | 0 <= n < |init| ensures Quiet(Run(s, init[..n]), init[n]) {
        assert init[..n] == steps[..n];
      }
      QuietRunIsExact(s, on, init);
      assert Quiet(Run(s, steps[..|steps| - 1]), steps[|steps| - 1]);
      StepKeepsExact(Run(s, init), on, steps[|steps| - 1]);
    }
    var r := Run(s, steps);
    forall i | 0 <= i < MAXBULK && r.bulk[i].cnt > RESERVED && Covers(on, r.bulk[i].amsPort)
      ensures r.bulk[i].readSize == TS_READ_SIZE + Total(ServedBytes(r, i))
    {
      ExactReadSize(r, on, i);
    }
  }

  // ----- bulk reads switched on over a short read size -----

  lemma ServedIsPart(s: State, i: nat)
    requires Inv(s) && i < MAXBULK && s.bulk[i].cnt > RESERVED
    ensures TS_READ_SIZE + Total(ServedBytes(s, i)) <= Total(ReplyBytes(s.bulk[i]))
    ensures TS_READ_SIZE + Total(ServedBytes(s, i)) == Total(ReplyBytes(s.bulk[i]))
            <==> forall j :: RESERVED <= j < s.bulk[i].cnt ==> SlotServed(s, i, j)
  {
    assert Opened(s.bulk[i]);
    TimeSlotBytes(s.bulk[i]);
    var served, all := ServedBytes(s, i), ReplyBytes(s.bulk[i])[RESERVED..];
    TotalCompare(served, all);
    if served == all {
      forall j | RESERVED <= j < s.bulk[i].cnt ensures SlotServed(s, i, j) {
        assert served[j - RESERVED] == all[j - RESERVED];
      }
    } else if forall j :: RESERVED <= j < s.bulk[i].cnt ==> SlotServed(s, i, j) {
      AllServed(s, i);
    }
  }

  lemma RefreshedChunkServedIff(s: State, port: u16, answers: nat -> Answers, ok: bool, i: nat)
    requires Inv(s) && i < MAXBULK
    ensures var t := SymbolsChanged(s, port, answers, ok);
            && t.bulkOK && Inv(t)
            && (t.bulk[i].cnt > RESERVED && Covers(port, t.bulk[i].amsPort) ==>
                  (Total(ReplyBytes(t.bulk[i])) <= t.bulk[i].readSize
                   <==> AllSlotsServed(t, i)))
  {
    var lost, t := Invalidate(s, port), SymbolsChanged(s, port, answers, ok);
    InvalidateKeepsInv(s, port);
    InvalidateMakesExact(s, port);
    RefreshKeepsInv(lost, port, answers, ok);
    RefreshKeepsExact(lost, port, port, answers, 1);
    assert Exact(t, port);
    if t.bulk[i].cnt > RESERVED && Covers(port, t.bulk[i].amsPort) {
      ExactReadSize(t, port, i);
      ServedIsPart(t, i);
    }
  }

  /** What the PLC must say for a parameter with a slot to be brought up to date in
      bulk: a description within the limit, a buffer and a handle. */
  predicate Refreshable(p: Param, a: Answers) {
    a.bufferOk &&
    if p.isAdr then p.plcSize <= 0x10_0000
    else match a.lookup
      case DictHit(size, _) => size <= 0x10_0000
      case Asked(info, given) => info.Some? && info.value.size <= 0x10_0000 && given.Some?
  }

  /** Parameter `k` and its history are the same in both. */
  predicate Untouched(s: State, t: State, k: nat) {
    && k < |s.params| && k < |t.params| && t.params[k] == s.params[k]
    && SinceWritten(t.log, k) == SinceWritten(s.log, k)
  }

  /** An event about another parameter. */
  lemma EventLeaves(log: seq<Event>, e: Event, k: nat)
    requires e.Invalidated? || e.param != k
    ensures SinceWritten(log + [e], k) == SinceWritten(log, k)
  {
    LogSnoc(log, e);
  }

  lemma CompleteLeaves(s: State, l: nat, k: nat)
    requires Shape(s) && l < |s.params| && k < |s.params| && k != l
    ensures Untouched(s, Complete(s, l), k)
  {
    LeavesBy(s, Complete(s, l), Completed(l), k);
  }

  lemma LeavesBy(s: State, t: State, e: Event, k: nat)
    requires t.log == s.log + [e] && (e.Invalidated? || e.param != k)
    requires k < |s.params| && k < |t.params| && t.params[k] == s.params[k]
    ensures Untouched(s, t, k)
  {
    EventLeaves(s.log, e, k);
  }

  lemma PlaceLeaves(s: State, l: nat, a: Answers, k: nat)
    requires Shape(s) && 1 <= l < s.count && FirstFit(s.bulk, s.params[l].amsPort) < MAXBULK
    requires k < |s.params| && k != l
    ensures var t := Place(s, l, a); |t.params| == |s.params| && t.params[k] == s.params[k] && t.log == s.log
  {
  }

  lemma WriteLeaves(s: State, l: nat, k: nat)
    requires Shape(s) && 1 <= l < s.count && 0 <= s.params[l].bulkIndex && k < |s.params| && k != l
    ensures Untouched(s, WriteSlot(s, l), k)
  {
    var p := s.params[l];
    LeavesBy(s, WriteSlot(s, l), Registered(l, p.bulkIndex, p.bulkOffset, p.plcSize), k);
  }

  lemma AddLeaves(s: State, l: nat, a: Answers, k: nat)
    requires Shape(s) && 1 <= l < s.count && !NoRoom(s, l) && k < |s.params| && k != l
    ensures Untouched(s, AddToBulk(s, l, a), k)
  {
    if s.params[l].bulkIndex < 0 {
      PlaceLeaves(s, l, a, k);
      WriteLeaves(Place(s, l, a), l, k);
    } else {
      WriteLeaves(s, l, k);
    }
  }

  lemma RefetchLeaves(s: State, l: nat, info: Option<SymInfo>, k: nat)
    requires Shape(s) && l < |s.params| && k < |s.params| && k != l
    ensures Untouched(s, Refetch(s, l, info).0, k)
  {
    if info.Some? {
      EventLeaves(s.log, Sized(l, info.value.size), k);
    }
  }

  lemma SubscribeLeaves(s: State, l: nat, a: Answers, k: nat)
    requires Shape(s) && l < |s.params| && k < |s.params| && k != l
    ensures Untouched(s, Subscribe(s, l, a).0, k)
  {
    var t := Refetch(s, l, a.refetch).0;
    RefetchLeaves(s, l, a.refetch, k);
    EventLeaves(t.log, Subscribed(l), k);
  }

  lemma DeliverLeaves(s: State, l: nat, a: Answers, k: nat)
    requires Shape(s) && 1 <= l < s.count && k < |s.params| && k != l
    ensures Untouched(s, Deliver(s, l, a).0, k)
  {
    CompleteLeaves(s, l, k);
    SubscribeLeaves(s, l, a, k);
    CompleteLeaves(Subscribe(s, l, a).0, l, k);
    if !NoRoom(s, l) {
      AddLeaves(s, l, a, k);
      CompleteLeaves(AddToBulk(s, l, a), l, k);
    }
  }

  lemma UpdateFromPlcLeaves(s: State, l: nat, a: Answers, k: nat)
    requires Shape(s) && 1 <= l < s.count && k < |s.params| && k != l
    ensures Untouched(s, UpdateFromPlc(s, l, a).0, k)
  {
    var p := s.params[l];
    if Described(p, a.lookup).Some? {
      var d := Described(p, a.lookup).value;
      var t := SetParam(Describe(s, l, d), l, Handled(d, a.lookup).0);
      DescribeLeaves(s, l, d, k);
      DeliverLeaves(t, l, a, k);
    }
  }

  lemma UpdateLeaves(s: State, l: nat, a: Answers, k: nat)
    requires Shape(s) && 1 <= l < s.count && k < |s.params| && k != l
    ensures Untouched(s, UpdateParam(s, l, a).0, k)
  {
    CompleteLeaves(s, l, k);
    UpdateFromPlcLeaves(s, l, a, k);
  }

  lemma DescribeLeaves(s: State, l: nat, q: Param, k: nat)
    requires Shape(s) && l < |s.params| && k < |s.params| && k != l && (1 <= l < s.count ==> PlaceShape(q))
    ensures Untouched(s, Describe(s, l, q), k)
  {
    EventLeaves(s.log, Sized(l, q.plcSize), k);
  }

  lemma {:induction false} RefreshLeaves(s: State, port: u16, answers: nat -> Answers, from: nat, k: nat)
    requires Shape(s) && 1 <= from <= s.count && k < from && k < |s.params|
    ensures Untouched(s, RefreshFrom(s, port, answers, from), k)
    decreases s.count - from
  {
    if from < s.count {
      var update := Covers(port, s.params[from].amsPort) && s.params[from].refreshNeeded;
      if update {
        UpdateLeaves(s, from, answers(from), k);
      }
      RefreshLeaves(if update then UpdateParam(s, from, answers(from)).0 else s, port, answers, from + 1, k);
    }
  }

  /** The parameter has a slot and is up to date and in step with it. */
  predicate ServedNow(s: State, k: nat)
    requires k < |s.params|
  {
    InService(s.log, k, s.params[k])
  }

  /** A flagged parameter delivered with a valid handle: with a slot it is served
      exactly when it is not subscribed to. */
  lemma DeliverServesIff(s: State, k: nat, a: Answers)
    requires Inv(s) && 1 <= k < s.count && s.params[k].refreshNeeded && s.params[k].source == FromPlc
    requires s.params[k].isAdr || s.params[k].handleValid
    ensures var t := Deliver(s, k, a).0;
            && (Assigned(t.params[k]) ==> (ServedNow(t, k) <==> s.params[k].plcSize <= SUBSCRIBE_LIMIT))
            && (Assigned(t.params[k]) && !Assigned(s.params[k]) ==> s.params[k].plcSize <= SUBSCRIBE_LIMIT)
  {
    var p := s.params[k];
    if Assigned(p) {
      OnlyPlcInputsAssigned(s, k);
    }
    if Subscribes(p) {
      SubscribedIsNotServed(s, k, a);
    } else if p.isIOIntr && !NoRoom(s, k) {
      AddServes(s, k, a);
    }
  }

  lemma SubscribedIsNotServed(s: State, k: nat, a: Answers)
    requires Inv(s) && 1 <= k < s.count && s.params[k].refreshNeeded
    ensures var (t, subscribed) := Subscribe(s, k, a);
            && t.params[k].refreshNeeded && t.params[k].bulkIndex == s.params[k].bulkIndex
            && (subscribed ==> !ServedNow(Complete(t, k), k))
  {
    var (t, subscribed) := Subscribe(s, k, a);
    var u := Refetch(s, k, a.refetch).0;
    if subscribed {
      LogFacts(u.log, Subscribed(k));
      LogFacts(t.log, Completed(k));
    }
  }

  lemma AddServes(s: State, k: nat, a: Answers)
    requires Inv(s) && 1 <= k < s.count && !NoRoom(s, k)
    ensures ServedNow(Complete(AddToBulk(s, k, a), k), k)
  {
    var placed := if s.params[k].bulkIndex < 0 then Place(s, k, a) else s;
    var p := placed.params[k];
    LogFacts(s.log, Registered(k, p.bulkIndex, p.bulkOffset, p.plcSize));
    LogFacts(AddToBulk(s, k, a).log, Completed(k));
  }

  /** In `t` parameter `p`, at position `k`, is served if it has a slot and could be refreshed, and only then. */
  predicate ServedAsRefreshable(p: Param, t: State, k: nat, a: Answers) {
    && k < |t.params|
    && (Assigned(t.params[k]) ==> (ServedNow(t, k) <==> Refreshable(p, a)))
    && (Assigned(t.params[k]) && !Assigned(p) ==> Refreshable(p, a))
  }

  lemma DescribedRefreshableIff(p: Param, a: Answers)
    ensures Refreshable(p, a)
            <==> a.bufferOk && Described(p, a.lookup).Some?
                 && var (h, gotHandle) := Handled(Described(p, a.lookup).value, a.lookup);
                    gotHandle && h.plcSize <= SUBSCRIBE_LIMIT
  {
  }

  lemma UpdateFromPlcServesIff(s: State, k: nat, a: Answers)
    requires Inv(s) && 1 <= k < s.count && s.params[k].refreshNeeded && s.params[k].source == FromPlc
    ensures ServedAsRefreshable(s.params[k], UpdateFromPlc(s, k, a).0, k, a)
  {
    var p := s.params[k];
    DescribedRefreshableIff(p, a);
    if Described(p, a.lookup).Some? {
      DescribedSeat(p, a.lookup);
      var d := Described(p, a.lookup).value;
      var (h, gotHandle) := Handled(d, a.lookup);
      DescribeKeepsInv(s, k, d);
      RehandleKeepsInv(Describe(s, k, d), k, h);
      if gotHandle && a.bufferOk {
        DeliverServesIff(SetParam(Describe(s, k, d), k, h), k, a);
      }
    }
  }

  lemma UpdateServesIff(s: State, k: nat, a: Answers)
    requires Inv(s) && 1 <= k < s.count && s.params[k].refreshNeeded
    ensures ServedAsRefreshable(s.params[k], UpdateParam(s, k, a).0, k, a)
  {
    if s.params[k].source == FromPlc {
      UpdateFromPlcServesIff(s, k, a);
    } else {
      LocalUnassigned(s, k);
    }
  }

  lemma UntouchedServes(p: Param, s: State, t: State, k: nat, a: Answers)
    requires Untouched(s, t, k) && ServedAsRefreshable(p, s, k, a)
    ensures ServedAsRefreshable(p, t, k, a)
  {
  }

  /** The state after the refresh has come to one more parameter. */
  function OneOn(s: State, port: u16, answers: nat -> Answers, from: nat): (t: State)
    requires Shape(s) && 1 <= from < s.count
    ensures Shape(t) && t.count == s.count && |t.params| == |s.params|
  {
    if Covers(port, s.params[from].amsPort) && s.params[from].refreshNeeded
    then UpdateParam(s, from, answers(from)).0 else s
  }

  lemma OneOnGoesOn(s: State, port: u16, answers: nat -> Answers, from: nat, next: nat)
    requires Shape(s) && 1 <= from < s.count && next == from + 1
    ensures RefreshFrom(s, port, answers, from) == RefreshFrom(OneOn(s, port, answers, from), port, answers, next)
  {
  }

  lemma OneOnLeaves(s: State, port: u16, answers: nat -> Answers, from: nat, k: nat)
    requires Shape(s) && 1 <= from < s.count && k < |s.params| && k != from
    ensures Untouched(s, OneOn(s, port, answers, from), k)
  {
    if Covers(port, s.params[from].amsPort) && s.params[from].refreshNeeded {
      UpdateLeaves(s, from, answers(from), k);
    }
  }

  lemma {:induction false} RefreshServesIff(s: State, port: u16, answers: nat -> Answers, from: nat, k: nat, r: State)
    requires Inv(s) && 1 <= from <= k < s.count && Covers(port, s.params[k].amsPort) && s.params[k].refreshNeeded
    requires r == RefreshFrom(s, port, answers, from)
    ensures ServedAsRefreshable(s.params[k], r, k, answers(k))
    decreases s.count - from
  {
    var t, next := OneOn(s, port, answers, from), from + 1;
    OneOnGoesOn(s, port, answers, from, next);
    if from == k {
      UpdateServesIff(s, k, answers(k));
      RefreshLeaves(t, port, answers, next, k);
      UntouchedServes(s.params[k], t, r, k, answers(k));
    } else {
      OneOnKeepsInv(s, port, answers, from);
      OneOnLeaves(s, port, answers, from, k);
      RefreshServesIff(t, port, answers, next, k, r);
    }
  }

  lemma OneOnKeepsInv(s: State, port: u16, answers: nat -> Answers, from: nat)
    requires Inv(s) && 1 <= from < s.count
    ensures Inv(OneOn(s, port, answers, from))
  {
    if Covers(port, s.params[from].amsPort) && s.params[from].refreshNeeded {
      UpdateKeepsInv(s, from, answers(from));
    }
  }

  /** Every parameter that has its slot in the chunk is described within the limit and given a buffer and a handle. */
  ghost predicate OwnersRefreshable(s: State, i: nat, answers: nat -> Answers)
    requires Shape(s)
  {
    forall k :: 1 <= k < s.count && s.params[k].bulkIndex == i ==> Refreshable(s.params[k], answers(k))
  }

  lemma OwnerRefreshedIff(s: State, port: u16, answers: nat -> Answers, ok: bool, k: nat)
    requires Inv(s) && s.connected && 1 <= k < s.count && Covers(port, s.params[k].amsPort)
    ensures var t := SymbolsChanged(s, port, answers, ok);
            && k < |t.params| && t.count == s.count
            && (Assigned(t.params[k]) ==> (ServedNow(t, k) <==> Refreshable(s.params[k], answers(k))))
            && (Assigned(t.params[k]) && !Assigned(s.params[k]) ==> Refreshable(s.params[k], answers(k)))
  {
    InvalidateKeepsInv(s, port);
    var lost := Invalidate(s, port);
    RefreshServesIff(lost, port, answers, 1, k, RefreshFrom(lost, port, answers, 1));
  }

  lemma AllServedIffRefreshable(s: State, port: u16, answers: nat -> Answers, ok: bool, i: nat)
    requires Inv(s) && s.connected && i < MAXBULK
    requires var t := SymbolsChanged(s, port, answers, ok); t.bulk[i].cnt > RESERVED && Covers(port, t.bulk[i].amsPort)
    ensures var t := SymbolsChanged(s, port, answers, ok);
            AllSlotsServed(t, i) <==> OwnersRefreshable(s, i, answers)
  {
    var t := SymbolsChanged(s, port, answers, ok);
    RefreshedChunkServedIff(s, port, answers, ok, i);
    RefreshStaysPut(s, port, answers, ok);
    if OwnersRefreshable(s, i, answers) {
      forall j | RESERVED <= j < t.bulk[i].cnt ensures SlotServed(t, i, j) {
        RefreshableSlotServed(s, t, port, answers, ok, i, j);
      }
    } else {
      NotRefreshableNotServed(s, t, port, answers, ok, i);
    }
  }

  ghost predicate AllSlotsServed(s: State, i: nat)
    requires Shape(s) && i < MAXBULK
  {
    forall j :: RESERVED <= j < s.bulk[i].cnt ==> SlotServed(s, i, j)
  }

  lemma RefreshStaysPut(s: State, port: u16, answers: nat -> Answers, ok: bool)
    requires Shape(s)
    ensures BulkTheorems.Stays(s, SymbolsChanged(s, port, answers, ok))
  {
    BulkTheorems.StepStays(s, StepSymbols(port, answers, ok));
  }

  lemma NotRefreshableNotServed(s: State, t: State, port: u16, answers: nat -> Answers, ok: bool, i: nat)
    requires Inv(s) && Inv(t) && s.connected && t == SymbolsChanged(s, port, answers, ok) && BulkTheorems.Stays(s, t)
    requires i < MAXBULK && Covers(port, t.bulk[i].amsPort) && !OwnersRefreshable(s, i, answers)
    ensures !AllSlotsServed(t, i)
  {
    var k :| 1 <= k < s.count && s.params[k].bulkIndex == i && !Refreshable(s.params[k], answers(k));
    if AllSlotsServed(t, i) {
      ServedOwnerRefreshable(s, t, port, answers, ok, i, k);
    }
  }

  lemma RefreshableSlotServed(s: State, t: State, port: u16, answers: nat -> Answers, ok: bool, i: nat, j: nat)
    requires Inv(s) && Inv(t) && s.connected && t == SymbolsChanged(s, port, answers, ok) && BulkTheorems.Stays(s, t)
    requires i < MAXBULK && RESERVED <= j < t.bulk[i].cnt && Covers(port, t.bulk[i].amsPort)
    requires OwnersRefreshable(s, i, answers)
    ensures SlotServed(t, i, j)
  {
    assert HasOwner(t, i, j);
    var k :| 1 <= k < t.count && Places(t.params[k], i, j);
    assert OwnsSlot(t.params[k], t.bulk[i]);
    RefreshKeepsCount(s, port, answers, ok);
    OwnerRefreshedIff(s, port, answers, ok, k);
    assert ServedNow(t, k);
  }

  lemma ServedOwnerRefreshable(s: State, t: State, port: u16, answers: nat -> Answers, ok: bool, i: nat, k: nat)
    requires Inv(s) && Inv(t) && s.connected && t == SymbolsChanged(s, port, answers, ok) && BulkTheorems.Stays(s, t)
    requires i < MAXBULK && Covers(port, t.bulk[i].amsPort) && 1 <= k < s.count && s.params[k].bulkIndex == i
    requires AllSlotsServed(t, i)
    ensures Refreshable(s.params[k], answers(k))
  {
    var j := s.params[k].bulkOffset;
    assert Assigned(s.params[k]) && Places(t.params[k], i, j);
    assert OwnsSlot(t.params[k], t.bulk[i]);
    RefreshKeepsCount(s, port, answers, ok);
    OwnerRefreshedIff(s, port, answers, ok, k);
    OneOwner(t, i, j, k);
    assert SlotServed(t, i, j);
  }

  lemma RefreshKeepsCount(s: State, port: u16, answers: nat -> Answers, ok: bool)
    requires Shape(s)
    ensures SymbolsChanged(s, port, answers, ok).count == s.count
  {
  }

  /** A symbol change, or a port lost and found, switches bulk reads on whatever
      the refresh did; the read size of a chunk of the port then covers the reply
      exactly when the driver counted as connected and every parameter with a slot
      in the chunk was described within the limit and given a buffer and a handle. */
  lemma RefreshedChunkCoversIff(s: State, port: u16, answers: nat -> Answers, ok: bool, i: nat)
    requires Inv(s) && i < MAXBULK
    ensures var t := SymbolsChanged(s, port, answers, ok);
            && t.bulkOK && Inv(t)
            && (t.bulk[i].cnt > RESERVED && Covers(port, t.bulk[i].amsPort) ==>
                  (Total(ReplyBytes(t.bulk[i])) <= t.bulk[i].readSize
                   <==> s.connected && OwnersRefreshable(s, i, answers)))
  {
    var t := SymbolsChanged(s, port, answers, ok);
    RefreshedChunkServedIff(s, port, answers, ok, i);
    if t.bulk[i].cnt > RESERVED && Covers(port, t.bulk[i].amsPort) {
      if s.connected {
        AllServedIffRefreshable(s, port, answers, ok, i);
      } else {
        DisconnectedRefresh(Invalidate(s, port), port, answers, ok);
        ReplyLonger(t, i);
      }
    }
  }

  /** While the driver counts as disconnected a refresh does nothing but switch bulk reads on. */
  lemma DisconnectedRefresh(s: State, port: u16, answers: nat -> Answers, ok: bool)
    requires Shape(s) && !s.connected
    ensures Refresh(s, port, answers, ok) == s.(bulkOK := true)
  {
    RefreshKeepsPorts(s, port, answers, 1);
  }

  /** Bulk reads are on, and the chunk is read with the time slots' share alone. */
  ghost predicate ReadsShort(s: State, i: nat) {
    && Shape(s) && i < MAXBULK && s.bulkOK && s.bulk[i].cnt > RESERVED
    && s.bulk[i].readSize == TS_READ_SIZE < Total(ReplyBytes(s.bulk[i]))
  }

  /** A port is lost, the driver counts as disconnected, and the port comes back. */
  function LostAndFound(n: nat, answers: nat -> Answers, again: nat -> Answers, ok: bool): seq<Step> {
    [StepSupervise(n, false, answers, ok), StepConnected(false), StepSupervise(n, true, again, ok)]
  }

  lemma SuperviseStep(s: State, n: nat, running: bool, answers: nat -> Answers, ok: bool)
    requires Shape(s) && n < |s.ports|
    ensures var t := SupervisePort(s, n, running, answers, ok);
            |t.ports| == |s.ports| && Apply(s, StepSupervise(n, running, answers, ok)) == t
  {
    var seen := s.(ports := s.ports[n := s.ports[n].(connected := running)]);
    RefreshKeepsPorts(seen, s.ports[n].amsPort, answers, 1);
  }

  lemma LostAndFoundRun(s: State, n: nat, answers: nat -> Answers, again: nat -> Answers, ok: bool)
    requires Shape(s) && n < |s.ports|
    ensures var lost := SupervisePort(s, n, false, answers, ok);
            n < |lost.ports|
            && Run(s, LostAndFound(n, answers, again, ok))
               == SupervisePort(lost.(connected := false), n, true, again, ok)
  {
    var lost := SupervisePort(s, n, false, answers, ok);
    SuperviseStep(s, n, false, answers, ok);
    ConnectedStep(lost, false);
    SuperviseStep(lost.(connected := false), n, true, again, ok);
    RunThree(s, StepSupervise(n, false, answers, ok), StepConnected(false), StepSupervise(n, true, again, ok));
  }

  lemma ConnectedStep(s: State, on: bool)
    requires Shape(s)
    ensures Shape(s.(connected := on)) && Apply(s, StepConnected(on)) == s.(connected := on)
  {
  }

  /** Then the chunks of the port are read short. */
  lemma LostAndFoundReadsShort(s: State, n: nat, answers: nat -> Answers, again: nat -> Answers, ok: bool, i: nat)
    requires Inv(s) && n < |s.ports| && s.ports[n].connected && i < MAXBULK
    requires s.bulk[i].cnt != 0 && s.bulk[i].amsPort == s.ports[n].amsPort
    ensures ReadsShort(Run(s, LostAndFound(n, answers, again, ok)), i)
  {
    LostAndFoundRun(s, n, answers, again, ok);
    PortLost(s, n, answers, ok, i);
    FoundReadsShort(SupervisePort(s, n, false, answers, ok).(connected := false), n, again, ok, i);
  }

  lemma FoundReadsShort(s: State, n: nat, again: nat -> Answers, ok: bool, i: nat)
    requires Shape(s) && n < |s.ports| && s.ports[n].refreshNeeded && !s.connected && i < MAXBULK
    requires s.bulk[i].cnt > RESERVED && s.bulk[i].readSize == TS_READ_SIZE < Total(ReplyBytes(s.bulk[i]))
    ensures ReadsShort(SupervisePort(s, n, true, again, ok), i)
  {
    PortFound(s, n, again, ok);
  }

  lemma PortLost(s: State, n: nat, answers: nat -> Answers, ok: bool, i: nat)
    requires Inv(s) && n < |s.ports| && s.ports[n].connected && i < MAXBULK
    requires s.bulk[i].cnt != 0 && s.bulk[i].amsPort == s.ports[n].amsPort
    ensures var t := SupervisePort(s, n, false, answers, ok);
            && t.bulk == Invalidate(s, s.ports[n].amsPort).bulk && n < |t.ports| && t.ports[n].refreshNeeded
            && t.bulk[i].cnt > RESERVED && t.bulk[i].readSize == TS_READ_SIZE < Total(ReplyBytes(t.bulk[i]))
  {
    assert Opened(s.bulk[i]);
    SuperviseKeepsInv(s, n, false, answers, ok);
    ReplyLonger(SupervisePort(s, n, false, answers, ok), i);
  }

  lemma PortFound(s: State, n: nat, answers: nat -> Answers, ok: bool)
    requires Shape(s) && n < |s.ports| && s.ports[n].refreshNeeded && !s.connected
    ensures var t := SupervisePort(s, n, true, answers, ok); t.bulkOK && t.bulk == s.bulk
  {
    var port := s.ports[n];
    DisconnectedRefresh(s.(ports := s.ports[n := port.(connected := true)]), port.amsPort, answers, ok);
  }

  /** One bulk parameter on a port that is up. */
  function FirstSteps(port: u16, answers: nat -> Answers): seq<Step> {
    [StepCreate(BulkTheorems.BulkCreation("A?", port, true)), StepSupervise(0, true, answers, true)]
  }

  lemma PortUp(s: State, answers: nat -> Answers)
    requires Shape(s) && |s.ports| == 1 && s.ports[0] == PortInfo(s.ports[0].amsPort, false, false)
    ensures var t := SupervisePort(s, 0, true, answers, true);
            |t.ports| == 1 && t.ports[0] == PortInfo(s.ports[0].amsPort, true, false) && t.bulk == s.bulk
  {
  }

  lemma FirstStepsLead(chunk: Chunk, port: u16, answers: nat -> Answers)
    requires ChunkShape(chunk)
    ensures var s := Run(Init(5, chunk, port), FirstSteps(port, answers));
            && |s.ports| == 1 && s.ports[0] == PortInfo(port, true, false)
            && s.bulk[0].cnt == 3 && s.bulk[0].amsPort == port
  {
    var s0 := Init(5, chunk, port);
    var s1 := Create(s0, BulkTheorems.BulkCreation("A?", port, true));
    BulkTheorems.NamesValid();
    BulkTheorems.BulkCreated(s0, "A?", port);
    RunTwo(s0, FirstSteps(port, answers)[0], FirstSteps(port, answers)[1]);
    assert s1.ports == [PortInfo(port, false, false)];
    PortUp(s1, answers);
  }

  /** There is a run of the driver in which that happens. */
  lemma ReachableShortRead(chunk: Chunk, port: u16, answers: nat -> Answers)
    requires ChunkShape(chunk)
    ensures exists s :: BulkTheorems.Reachable(s) && ReadsShort(s, 0)
  {
    var s0 := Init(5, chunk, port);
    var first := FirstSteps(port, answers);
    var lostAndFound := LostAndFound(0, answers, answers, true);
    FirstStepsLead(chunk, port, answers);
    InitInv(5, chunk, port);
    RunKeepsInv(s0, first);
    BulkTheorems.RunOn(s0, first, lostAndFound);
    LostAndFoundReadsShort(Run(s0, first), 0, answers, answers, true, 0);
    assert BulkTheorems.Reachable(Run(s0, first + lostAndFound));
  }

  lemma RunTwo(s: State, a: Step, b: Step)
    requires Shape(s)
    ensures Run(s, [a, b]) == Apply(Apply(s, a), b)
  {
    BulkTheorems.RunSnoc(s, [], a);
    BulkTheorems.RunSnoc(s, [a], b);
    assert [] + [a] == [a] && [a] + [b] == [a, b];
  }

  lemma RunThree(s: State, a: Step, b: Step, c: Step)
    requires Shape(s)
    ensures Run(s, [a, b, c]) == Apply(Apply(Apply(s, a), b), c)
  {
    BulkTheorems.RunSnoc(s, [], a);
    BulkTheorems.RunSnoc(s, [a], b);
    BulkTheorems.RunSnoc(s, [a, b], c);
    assert [] + [a] == [a] && [a] + [b] == [a, b] && [a, b] + [c] == [a, b, c];
  }

  lemma ReplyLonger(s: State, i: nat)
    requires Inv(s) && i < MAXBULK && s.bulk[i].cnt != 0
    ensures TS_READ_SIZE < Total(ReplyBytes(s.bulk[i]))
  {
    var c := s.bulk[i];
    assert Opened(c);
    TimeSlotBytes(c);
    var rest := ReplyBytes(c)[RESERVED..];
    var ones := seq(|rest|, k => 1);
    TotalCompare(ones, rest);
    TotalOnes(|rest|);
  }

  lemma {:induction false} TotalOnes(n: nat)
    ensures Total(seq(n, k => 1)) == n
  {
    if n > 0 {
      TotalOnes(n - 1);
      assert seq(n, k => 1)[..n - 1] == seq(n - 1, k => 1);
    }
  }

  // ----- freshness -----

  /** `k` completed at `n`, and its port was not invalidated after that. */
  predicate CompletedAt(log: seq<Event>, k: nat, port: u16, n: nat) {
    n < |log| && log[n] == Completed(k)
    && forall m :: n < m < |log| && log[m].Invalidated? ==> !Covers(log[m].port, port)
  }

  lemma {:induction false} FreshMeansCompleted(log: seq<Event>, k: nat, port: u16)
    ensures FreshIn(log, k, port) <==> exists n: nat :: CompletedAt(log, k, port, n)
  {
    if log != [] {
      var last := |log| - 1;
      FreshMeansCompleted(log[..last], k, port);
      if FreshIn(log, k, port) {
        if log[last] == Completed(k) {
          assert CompletedAt(log, k, port, last);
        } else {
          var n: nat :| CompletedAt(log[..last], k, port, n);
          assert CompletedAt(log, k, port, n);
        }
      }
      if n: nat :| CompletedAt(log, k, port, n) && n != last {
        assert CompletedAt(log[..last], k, port, n);
      }
    }
  }

  /** A parameter that is not flagged has completed an update since its port was last invalidated. */
  lemma UnflaggedIsFresh(s: State, k: nat)
    requires BulkTheorems.Reachable(s) && 1 <= k < s.count <= |s.params| && !s.params[k].refreshNeeded
    ensures exists n: nat :: CompletedAt(s.log, k, s.params[k].amsPort, n)
  {
    BulkTheorems.ReachableInv(s);
    FreshMeansCompleted(s.log, k, s.params[k].amsPort);
  }

  /** `k` was last described at `n`, and its slot was not written since. */
  predicate SizedAt(log: seq<Event>, k: nat, n: nat) {
    n < |log| && log[n].Sized? && log[n].param == k
    && forall m :: n < m < |log| && (log[m].Sized? || log[m].Registered?) ==> log[m].param != k
  }

  lemma {:induction false} SizedMeans(log: seq<Event>, k: nat, size: u32)
    ensures SinceWritten(log, k).sized == Some(size)
            <==> exists n: nat :: SizedAt(log, k, n) && log[n].size == size
  {
    if log != [] {
      var last := |log| - 1;
      SizedMeans(log[..last], k, size);
      if SinceWritten(log, k).sized == Some(size) {
        if log[last].Sized? && log[last].param == k {
          assert SizedAt(log, k, last);
        } else {
          var n: nat :| SizedAt(log[..last], k, n) && log[..last][n].size == size;
          assert SizedAt(log, k, n);
        }
      }
      if n: nat :| SizedAt(log, k, n) && log[n].size == size && n != last {
        assert SizedAt(log[..last], k, n);
      }
    }
  }

  /** The slot of `k` was last written at `n`. */
  predicate WrittenAt(log: seq<Event>, k: nat, n: nat) {
    n < |log| && log[n].Registered? && log[n].param == k
    && forall m :: n < m < |log| && log[m].Registered? ==> log[m].param != k
  }

  lemma {:induction false} WrittenMeans(log: seq<Event>, k: nat, size: u32)
    ensures SinceWritten(log, k).written == Some(size)
            <==> exists n: nat :: WrittenAt(log, k, n) && log[n].size == size
  {
    if log != [] {
      var last := |log| - 1;
      WrittenMeans(log[..last], k, size);
      if SinceWritten(log, k).written == Some(size) {
        if log[last].Registered? && log[last].param == k {
          assert WrittenAt(log, k, last);
        } else {
          var n: nat :| WrittenAt(log[..last], k, n) && log[..last][n].size == size;
          assert WrittenAt(log, k, n);
        }
      }
      if n: nat :| WrittenAt(log, k, n) && log[n].size == size && n != last {
        assert WrittenAt(log[..last], k, n);
      }
    }
  }

  /** Losing a port flags every parameter on it and leaves the port marked for a refresh. */
  lemma LostPortIsFlagged(s: State, i: nat, answers: nat -> Answers, ok: bool)
    requires Shape(s) && i < |s.ports| && s.ports[i].connected
    ensures var t := SupervisePort(s, i, false, answers, ok);
            && (forall k :: 1 <= k < t.count && t.params[k].amsPort == s.ports[i].amsPort ==> t.params[k].refreshNeeded)
            && t.ports[i] == PortInfo(s.ports[i].amsPort, false, true)
            && !t.bulkOK
  {
  }
}
