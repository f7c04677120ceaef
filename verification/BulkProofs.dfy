/** Every step keeps the invariant of the bulk-read index. */
module BulkProofs {
  import opened Bytes
  import opened BulkModel
  import opened BulkInvariants

  /** Nothing that decides where a parameter lives has changed. */
  predicate SameSeat(p: Param, q: Param) {
    && p.amsPort == q.amsPort && p.paramIndex == q.paramIndex
    && p.bulkIndex == q.bulkIndex && p.bulkOffset == q.bulkOffset
    && p.isIOIntr == q.isIOIntr && p.isBulkRead == q.isBulkRead && p.source == q.source
  }

  /** The same parameters in the same slots of the same chunks. */
  ghost predicate Reseated(s: State, t: State) {
    && t.count == s.count && |t.params| == |s.params| && s.count <= |s.params|
    && t.bulk == s.bulk && t.asynNames == s.asynNames
    && (forall k: nat :: SinceWritten(t.log, k).written == SinceWritten(s.log, k).written)
    && (forall k :: 1 <= k < s.count && SizeKnown(s.log, k, s.params[k]) ==> SizeKnown(t.log, k, t.params[k]))
    && (forall k :: 0 <= k < s.count ==> SameSeat(s.params[k], t.params[k]))
  }

  lemma ReseatedKeepsIndex(s: State, t: State)
    requires Shape(s) && Shape(t) && Reseated(s, t) && Indexed(s)
    ensures Indexed(t)
  {
    forall i, j | 0 <= i < MAXBULK && RESERVED <= j < t.bulk[i].cnt
      ensures HasOwner(t, i, j)
    {
      assert HasOwner(s, i, j);
      var k :| 1 <= k < s.count && Places(s.params[k], i, j);
      assert SameSeat(s.params[k], t.params[k]);
      assert Places(t.params[k], i, j);
    }
    forall k, l | 1 <= k < l < t.count && Assigned(t.params[k])
      ensures !Places(t.params[l], t.params[k].bulkIndex, t.params[k].bulkOffset)
    {
      assert SameSeat(s.params[k], t.params[k]) && SameSeat(s.params[l], t.params[l]);
    }
    forall k | 1 <= k < t.count && Assigned(t.params[k])
      ensures OwnsSlot(t.params[k], t.bulk[t.params[k].bulkIndex])
    {
      assert SameSeat(s.params[k], t.params[k]);
      assert OwnsSlot(s.params[k], s.bulk[s.params[k].bulkIndex]);
    }
  }

  lemma ReseatedKeepsCounts(s: State, t: State)
    requires Shape(s) && Shape(t) && Reseated(s, t) && Counted(s)
    ensures Counted(t)
  {
    forall port: u16
      ensures AssignedOn(t, port) == SlotsOn(t.bulk, port)
    {
      var xs, ys := OnPort(s.params[1..s.count], port), OnPort(t.params[1..t.count], port);
      forall k | 0 <= k < |xs| ensures xs[k] == ys[k] {
        assert SameSeat(s.params[k + 1], t.params[k + 1]);
      }
      assert xs == ys;
      assert AssignedOn(s, port) == SlotsOn(s.bulk, port);
    }
  }

  lemma ReseatedKeepsPlaced(s: State, t: State, e: nat)
    requires Shape(s) && Shape(t) && Reseated(s, t) && Placed(s, e)
    ensures Placed(t, e)
  {
    ReseatedKeepsIndex(s, t);
    ReseatedKeepsCounts(s, t);
    assert forall k :: 0 <= k < s.count ==> SameSeat(s.params[k], t.params[k]);
  }

  predicate SameNeeds(p: Param, q: Param) {
    LoneRequest(q) == LoneRequest(p) && q.isAdr == p.isAdr && (p.handleValid ==> q.handleValid)
  }

  /** Flags may only be raised, and what is not flagged keeps its request. */
  ghost predicate Calm(s: State, t: State)
  {
    && Reseated(s, t) && t.log == s.log
    && (forall k :: 1 <= k < s.count ==> t.params[k].plcSize == s.params[k].plcSize)
    && (forall k :: 1 <= k < s.count && !t.params[k].refreshNeeded ==>
          !s.params[k].refreshNeeded && SameNeeds(s.params[k], t.params[k]))
  }

  lemma CalmKeepsCurrent(s: State, t: State)
    requires Shape(s) && Current(s) && Shape(t) && Calm(s, t)
    ensures Current(t)
  {
    forall k | 1 <= k < s.count
      ensures SameSeat(s.params[k], t.params[k]) && ServiceCovered(t.log, k, t.params[k]) && SyncedAt(t, k)
    {
      assert ServiceCovered(s.log, k, s.params[k]) && SyncedAt(s, k);
    }
  }

  lemma CalmKeepsInv(s: State, t: State)
    requires Inv(s) && Shape(t) && Calm(s, t)
    ensures Inv(t)
  {
    ReseatedKeepsPlaced(s, t, 0);
    CalmKeepsCurrent(s, t);
  }

  lemma LogFacts(log: seq<Event>, e: Event)
    ensures forall k: nat, port: u16 :: FreshIn(log + [e], k, port) ==
              (match e
               case Completed(l) => l == k || FreshIn(log, k, port)
               case Invalidated(q) => !Covers(q, port) && FreshIn(log, k, port)
               case _ => FreshIn(log, k, port))
    ensures forall i: nat, j: nat, port: u16 :: RegisteredBytes(log + [e], i, j, port) ==
              (match e
               case Invalidated(q) => if Covers(q, port) then 0 else RegisteredBytes(log, i, j, port)
               case Registered(_, a, b, size) =>
                 RegisteredBytes(log, i, j, port) + if a == i && b == j then size + STATUS_SIZE else 0
               case _ => RegisteredBytes(log, i, j, port))
    ensures forall k: nat :: SinceWritten(log + [e], k) ==
              (match e
               case Registered(l, _, _, size) => if l == k then Since(Some(size), false, None) else SinceWritten(log, k)
               case Subscribed(l) => SinceWritten(log, k).(subscribed := l == k || SinceWritten(log, k).subscribed)
               case Sized(l, size) =>
                 SinceWritten(log, k).(sized := if l == k then Some(size) else SinceWritten(log, k).sized)
               case _ => SinceWritten(log, k))
  {
    LogSnoc(log, e);
  }

  // ----- Complete -----

  ghost predicate ReadyToServe(s: State, k: nat)
    requires Shape(s) && 1 <= k < s.count
  {
    var p := s.params[k];
    Assigned(p) ==>
      && Tracked(SinceWritten(s.log, k), p, SlotOf(s, p))
      && ServiceCovered(s.log, k, p.(refreshNeeded := false))
  }

  /** An event of this kind changes nothing that is recorded of a slot or its bytes. */
  lemma CompletedAside(log: seq<Event>, n: nat, k: nat, i: nat, j: nat, port: u16)
    ensures SinceWritten(log + [Completed(n)], k) == SinceWritten(log, k)
    ensures RegisteredBytes(log + [Completed(n)], i, j, port) == RegisteredBytes(log, i, j, port)
  {
    LogSnoc(log, Completed(n));
  }

  lemma CompleteKeepsReadSize(s: State, k: nat, i: nat)
    requires Inv(s) && 1 <= k < s.count && i < MAXBULK
    ensures ReadSizeAdds(Complete(s, k).log, i, s.bulk[i])
  {
    assert ReadSizeAdds(s.log, i, s.bulk[i]);
    if s.bulk[i].cnt > RESERVED {
      var n, port := s.bulk[i].cnt - RESERVED, s.bulk[i].amsPort;
      var before, after := SlotBytes(s.log, i, port, n), SlotBytes(Complete(s, k).log, i, port, n);
      forall j | 0 <= j < n ensures after[j] == before[j] {
        CompletedAside(s.log, k, 0, i, j + RESERVED, port);
      }
      assert after == before;
    }
  }

  lemma CompleteKeepsOne(s: State, k: nat, l: nat)
    requires Inv(s) && 1 <= k < s.count && ReadyToServe(s, k) && 1 <= l < s.count
    ensures var t := Complete(s, k); ServiceCovered(t.log, l, t.params[l]) && SyncedAt(t, l)
  {
    var p := s.params[l];
    assert ServiceCovered(s.log, l, p) && SyncedAt(s, l);
    if Assigned(p) {
      assert OwnsSlot(p, s.bulk[p.bulkIndex]);
      CompletedAside(s.log, k, l, p.bulkIndex, p.bulkOffset, p.amsPort);
    }
  }

  lemma CompleteKeepsInv(s: State, k: nat)
    requires Inv(s) && 1 <= k < s.count && ReadyToServe(s, k)
    ensures Inv(Complete(s, k))
  {
    var t := Complete(s, k);
    LogFacts(s.log, Completed(k));
    ReseatedKeepsPlaced(s, t, 0);
    forall i | 0 <= i < MAXBULK ensures ReadSizeAdds(t.log, i, t.bulk[i]) {
      CompleteKeepsReadSize(s, k, i);
    }
    forall l | 1 <= l < s.count ensures ServiceCovered(t.log, l, t.params[l]) && SyncedAt(t, l) {
      CompleteKeepsOne(s, k, l);
    }
  }

  // ----- Place -----

  ghost predicate CanPlace(s: State, k: nat)
    requires Shape(s)
  {
    1 <= k < s.count && !Assigned(s.params[k]) && s.params[k].refreshNeeded
    && s.params[k].isIOIntr && s.params[k].isBulkRead && s.params[k].source == FromPlc
    && FirstFit(s.bulk, s.params[k].amsPort) < MAXBULK
  }

  lemma PlaceKeepsPacked(s: State, k: nat, a: Answers)
    requires Shape(s) && Packed(s.bulk) && CanPlace(s, k)
    ensures Packed(Place(s, k, a).bulk)
  {
    var port := s.params[k].amsPort;
    var i := FirstFit(s.bulk, port);
    var t := Place(s, k, a);
    var c := TargetChunk(s, i, port, a);
    assert s.bulk[i].cnt != 0 ==> Opened(s.bulk[i]);
    assert Opened(t.bulk[i]);
    forall l, j | 0 <= l < j < MAXBULK && t.bulk[j].cnt != 0 && t.bulk[l].amsPort == t.bulk[j].amsPort
      ensures t.bulk[l].cnt == BULKSIZ
    {
      if j == i {
        assert !Fits(s.bulk[l], port);
      }
    }
  }

  lemma PlaceKeepsIndex(s: State, k: nat, a: Answers)
    requires Shape(s) && Packed(s.bulk) && Indexed(s) && CanPlace(s, k)
    ensures Indexed(Place(s, k, a))
  {
    var t := Place(s, k, a);
    var i := t.params[k].bulkIndex;
    assert s.bulk[i].cnt != 0 ==> Opened(s.bulk[i]);
    assert OwnsSlot(t.params[k], t.bulk[i]);
    forall l | 1 <= l < s.count && l != k && Assigned(s.params[l])
      ensures OwnsSlot(t.params[l], t.bulk[t.params[l].bulkIndex])
      ensures !Places(t.params[l], i, t.params[k].bulkOffset)
    {
      assert OwnsSlot(s.params[l], s.bulk[s.params[l].bulkIndex]);
    }
    forall x, j | 0 <= x < MAXBULK && RESERVED <= j < t.bulk[x].cnt
      ensures HasOwner(t, x, j)
    {
      if x == i && j == t.params[k].bulkOffset {
        assert Places(t.params[k], x, j);
      } else {
        assert HasOwner(s, x, j);
        var l :| 1 <= l < s.count && Places(s.params[l], x, j);
        assert Places(t.params[l], x, j);
      }
    }
  }

  lemma PlaceFillsOne(s: State, k: nat, a: Answers, port: u16)
    requires Shape(s) && Packed(s.bulk) && CanPlace(s, k)
    ensures SlotsOn(Place(s, k, a).bulk, port) - SlotsOn(s.bulk, port) == if port == s.params[k].amsPort then 1 else 0
  {
    var i := FirstFit(s.bulk, s.params[k].amsPort);
    assert s.bulk[i].cnt != 0 ==> Opened(s.bulk[i]);
    var fs := Fills(s.bulk, port);
    var one := if port == s.params[k].amsPort then 1 else 0;
    assert Fills(Place(s, k, a).bulk, port) == fs[i := fs[i] + one];
    TotalUpdate(fs, i, fs[i] + one);
  }

  lemma PlaceAssignsOne(s: State, k: nat, a: Answers, port: u16)
    requires Shape(s) && CanPlace(s, k)
    ensures AssignedOn(Place(s, k, a), port) - AssignedOn(s, port) == if port == s.params[k].amsPort then 1 else 0
  {
    var t := Place(s, k, a);
    var one := if port == s.params[k].amsPort then 1 else 0;
    var xs := OnPort(s.params[1..s.count], port);
    assert OnPort(t.params[1..t.count], port) == xs[k - 1 := one];
    TotalUpdate(xs, k - 1, one);
  }

  lemma PlaceKeepsCounts(s: State, k: nat, a: Answers)
    requires Shape(s) && Packed(s.bulk) && Counted(s) && CanPlace(s, k)
    ensures Counted(Place(s, k, a))
  {
    forall port: u16 ensures AssignedOn(Place(s, k, a), port) == SlotsOn(Place(s, k, a).bulk, port) {
      assert AssignedOn(s, port) == SlotsOn(s.bulk, port);
      PlaceFillsOne(s, k, a, port);
      PlaceAssignsOne(s, k, a, port);
    }
  }

  lemma PlaceKeepsOthers(s: State, k: nat, a: Answers, l: nat)
    requires Shape(s) && Indexed(s) && CanPlace(s, k)
    requires 1 <= l < s.count && l != k && Assigned(s.params[l])
    ensures var t := Place(s, k, a); SlotOf(t, t.params[l]) == SlotOf(s, s.params[l])
  {
    assert OwnsSlot(s.params[l], s.bulk[s.params[l].bulkIndex]);
  }

  lemma PlaceKeepsSynced(s: State, k: nat, a: Answers)
    requires Inv(s) && CanPlace(s, k)
    ensures var t := Place(s, k, a); SmallExcept(t, k) && Numbered(t) && Synced(t) && Fresh(t)
  {
    var t := Place(s, k, a);
    forall l | 1 <= l < s.count && l != k && Assigned(s.params[l])
      ensures SlotOf(t, t.params[l]) == SlotOf(s, s.params[l])
    {
      PlaceKeepsOthers(s, k, a, l);
    }
    forall l | 1 <= l < s.count ensures SyncedAt(t, l) {
      assert SyncedAt(s, l);
    }
  }

  lemma PlaceKeepsReadSize(s: State, k: nat, a: Answers)
    requires Shape(s) && Packed(s.bulk) && Accounted(s) && CanPlace(s, k)
    ensures var t := Place(s, k, a);
            var i := t.params[k].bulkIndex;
            ReadSizeAdds(t.log, i, t.bulk[i])
  {
    var t := Place(s, k, a);
    var i := t.params[k].bulkIndex;
    var n := t.bulk[i].cnt - RESERVED;
    assert s.bulk[i].cnt != 0 ==> Opened(s.bulk[i]) && ReadSizeAdds(s.log, i, s.bulk[i]);
    Unregistered(s.log, i, t.params[k].bulkOffset, t.bulk[i].amsPort);
    assert SlotBytes(t.log, i, t.bulk[i].amsPort, n) == SlotBytes(s.log, i, t.bulk[i].amsPort, n - 1) + [0];
    TotalSnoc(SlotBytes(s.log, i, t.bulk[i].amsPort, n - 1), 0);
  }

  lemma PlaceKeepsAccounts(s: State, k: nat, a: Answers)
    requires Shape(s) && Packed(s.bulk) && Accounted(s) && CanPlace(s, k)
    ensures Accounted(Place(s, k, a))
  {
    var t := Place(s, k, a);
    PlaceKeepsReadSize(s, k, a);
    forall i | 0 <= i < MAXBULK ensures ReadSizeAdds(t.log, i, t.bulk[i]) {
      assert ReadSizeAdds(s.log, i, s.bulk[i]);
    }
    forall l | 1 <= l < s.count ensures ServiceCovered(t.log, l, t.params[l]) {
      assert ServiceCovered(s.log, l, s.params[l]);
    }
  }

  lemma PlaceKeepsInv(s: State, k: nat, a: Answers)
    requires Inv(s) && CanPlace(s, k)
    ensures Placed(Place(s, k, a), k) && Current(Place(s, k, a))
  {
    PlaceKeepsPacked(s, k, a);
    PlaceKeepsIndex(s, k, a);
    PlaceKeepsCounts(s, k, a);
    PlaceKeepsSynced(s, k, a);
    PlaceKeepsAccounts(s, k, a);
  }

  // ----- WriteSlot -----

  ghost predicate CanWrite(s: State, k: nat)
    requires Shape(s)
  {
    1 <= k < s.count && Assigned(s.params[k]) && s.params[k].refreshNeeded && s.params[k].plcSize <= SUBSCRIBE_LIMIT
  }

  lemma WriteKeepsPlaced(s: State, k: nat)
    requires Shape(s) && Placed(s, k) && CanWrite(s, k)
    ensures Placed(WriteSlot(s, k), 0)
  {
    var t := WriteSlot(s, k);
    var i := s.params[k].bulkIndex;
    assert OwnsSlot(s.params[k], s.bulk[i]);
    assert Opened(s.bulk[i]) && Opened(t.bulk[i]);
    forall x, j | 0 <= x < MAXBULK && RESERVED <= j < t.bulk[x].cnt
      ensures HasOwner(t, x, j)
    {
      assert HasOwner(s, x, j);
      var l :| 1 <= l < s.count && Places(s.params[l], x, j);
      assert Places(t.params[l], x, j);
    }
    forall port: u16 ensures AssignedOn(t, port) == SlotsOn(t.bulk, port) {
      assert Fills(t.bulk, port) == Fills(s.bulk, port);
      assert AssignedOn(s, port) == SlotsOn(s.bulk, port);
    }
    LogFacts(s.log, Registered(k, i, s.params[k].bulkOffset, s.params[k].plcSize));
    forall l | 1 <= l < t.count && Assigned(t.params[l])
      ensures OwnsSlot(t.params[l], t.bulk[t.params[l].bulkIndex])
      ensures l != k ==> SlotOf(t, t.params[l]) == SlotOf(s, s.params[l])
    {
      assert OwnsSlot(s.params[l], s.bulk[s.params[l].bulkIndex]);
    }
  }

  lemma WriteKeepsReadSize(s: State, k: nat, x: nat)
    requires Shape(s) && Indexed(s) && Accounted(s) && CanWrite(s, k) && x < MAXBULK
    ensures ReadSizeAdds(WriteSlot(s, k).log, x, WriteSlot(s, k).bulk[x])
  {
    var t := WriteSlot(s, k);
    var p := s.params[k];
    LogFacts(s.log, Registered(k, p.bulkIndex, p.bulkOffset, p.plcSize));
    assert OwnsSlot(p, s.bulk[p.bulkIndex]);
    assert ReadSizeAdds(s.log, x, s.bulk[x]);
    if s.bulk[x].cnt > RESERVED {
      var port, n := s.bulk[x].amsPort, s.bulk[x].cnt - RESERVED;
      var bytes := SlotBytes(s.log, x, port, n);
      if x == p.bulkIndex {
        var j := p.bulkOffset - RESERVED;
        var more := bytes[j] + p.plcSize as int + STATUS_SIZE;
        assert SlotBytes(t.log, x, port, n) == bytes[j := more];
        TotalUpdate(bytes, j, more);
      } else {
        assert SlotBytes(t.log, x, port, n) == bytes;
      }
    }
  }

  lemma WriteKeepsOthers(s: State, k: nat, l: nat)
    requires Shape(s) && Indexed(s) && CanWrite(s, k)
    requires 1 <= l < s.count && l != k && Assigned(s.params[l])
    ensures var t := WriteSlot(s, k);
            var p := s.params[l];
            && SlotOf(t, p) == SlotOf(s, p)
            && RegisteredBytes(t.log, p.bulkIndex, p.bulkOffset, p.amsPort)
               == RegisteredBytes(s.log, p.bulkIndex, p.bulkOffset, p.amsPort)
  {
    var p, q := s.params[k], s.params[l];
    LogFacts(s.log, Registered(k, p.bulkIndex, p.bulkOffset, p.plcSize));
    assert OwnsSlot(p, s.bulk[p.bulkIndex]) && OwnsSlot(q, s.bulk[q.bulkIndex]);
    assert !Places(q, p.bulkIndex, p.bulkOffset);
  }

  lemma WriteServes(s: State, k: nat)
    requires Shape(s) && Indexed(s) && Synced(s) && Fresh(s) && CanWrite(s, k)
    requires s.params[k].isAdr || s.params[k].handleValid
    ensures Synced(WriteSlot(s, k)) && Fresh(WriteSlot(s, k)) && ReadyToServe(WriteSlot(s, k), k)
  {
    var t := WriteSlot(s, k);
    var p := s.params[k];
    LogFacts(s.log, Registered(k, p.bulkIndex, p.bulkOffset, p.plcSize));
    forall l | 1 <= l < t.count ensures SyncedAt(t, l) {
      assert SyncedAt(s, l);
      if l != k && Assigned(s.params[l]) {
        WriteKeepsOthers(s, k, l);
      }
    }
  }

  lemma WriteKeepsAccounts(s: State, k: nat)
    requires Shape(s) && Indexed(s) && Accounted(s) && CanWrite(s, k)
    ensures Accounted(WriteSlot(s, k))
  {
    var t := WriteSlot(s, k);
    assert OwnsSlot(s.params[k], s.bulk[s.params[k].bulkIndex]);
    forall x | 0 <= x < MAXBULK ensures ReadSizeAdds(t.log, x, t.bulk[x]) {
      WriteKeepsReadSize(s, k, x);
    }
    forall l | 1 <= l < t.count ensures ServiceCovered(t.log, l, t.params[l]) {
      if l != k && Assigned(s.params[l]) {
        WriteKeepsOthers(s, k, l);
      }
      assert ServiceCovered(s.log, l, s.params[l]);
    }
  }

  // ----- updateParamInfoWithPLCInfo -----

  lemma AddKeepsInv(s: State, k: nat, a: Answers)
    requires Inv(s) && 1 <= k < s.count && !NoRoom(s, k)
    requires s.params[k].refreshNeeded && s.params[k].plcSize <= SUBSCRIBE_LIMIT
    requires s.params[k].isIOIntr && s.params[k].isBulkRead && s.params[k].source == FromPlc
    requires s.params[k].isAdr || s.params[k].handleValid
    ensures Inv(AddToBulk(s, k, a)) && ReadyToServe(AddToBulk(s, k, a), k)
  {
    var placed := if Assigned(s.params[k]) then s else Place(s, k, a);
    if !Assigned(s.params[k]) {
      PlaceKeepsInv(s, k, a);
    }
    WriteKeepsPlaced(placed, k);
    WriteServes(placed, k);
    WriteKeepsAccounts(placed, k);
  }

  /** The event says nothing of reply bytes, completions or what was written. */
  predicate Aside(e: Event) {
    e.Subscribed? || e.Sized?
  }

  /** Parameter `k` is described anew, subscribed to or fetched again, and keeps its seat and its flag. */
  ghost predicate SetAside(s: State, t: State, k: nat, e: Event) {
    && Shape(s) && Shape(t) && 1 <= k < s.count && Aside(e) && e.param == k && s.params[k].refreshNeeded
    && t == s.(params := t.params, log := s.log + [e]) && |t.params| == |s.params| && t.params[k].refreshNeeded
    && t.params == s.params[k := t.params[k]] && SameSeat(s.params[k], t.params[k])
    && t.params[k].plcSize == if e.Sized? then e.size else s.params[k].plcSize
  }

  lemma AsideKeepsOne(s: State, t: State, k: nat, e: Event, l: nat)
    requires Inv(s) && SetAside(s, t, k, e) && 1 <= l < s.count
    ensures SyncedAt(t, l) && ServiceCovered(t.log, l, t.params[l])
  {
    assert SyncedAt(s, l) && ServiceCovered(s.log, l, s.params[l]);
    if l != k {
      LogSnoc(s.log, e);
    }
  }

  /** A flagged parameter may be described anew, subscribed to or fetched again. */
  lemma AsideKeepsInv(s: State, t: State, k: nat, e: Event)
    requires Inv(s) && 1 <= k < s.count && Aside(e) && e.param == k && s.params[k].refreshNeeded
    requires t == s.(params := t.params, log := s.log + [e]) && |t.params| == |s.params| && t.params[k].refreshNeeded
    requires t.params == s.params[k := t.params[k]] && SameSeat(s.params[k], t.params[k])
    requires t.params[k].plcSize == if e.Sized? then e.size else s.params[k].plcSize
    ensures Inv(t)
  {
    LogFacts(s.log, e);
    ReseatedKeepsPlaced(s, t, 0);
    forall i | 0 <= i < MAXBULK ensures ReadSizeAdds(t.log, i, t.bulk[i]) {
      AsideKeepsReadSize(s, e, i);
    }
    forall l | 1 <= l < s.count ensures SyncedAt(t, l) && ServiceCovered(t.log, l, t.params[l]) {
      AsideKeepsOne(s, t, k, e, l);
    }
  }

  lemma AsideKeepsReadSize(s: State, e: Event, i: nat)
    requires Shape(s) && Accounted(s) && i < MAXBULK && Aside(e)
    ensures ReadSizeAdds(s.log + [e], i, s.bulk[i])
  {
    LogFacts(s.log, e);
    assert ReadSizeAdds(s.log, i, s.bulk[i]);
    if s.bulk[i].cnt > RESERVED {
      var n, port := s.bulk[i].cnt - RESERVED, s.bulk[i].amsPort;
      assert SlotBytes(s.log + [e], i, port, n) == SlotBytes(s.log, i, port, n);
    }
  }

  lemma RefetchKeepsFlagged(s: State, k: nat, info: Option<SymInfo>)
    requires Inv(s) && 1 <= k < s.count && s.params[k].refreshNeeded
    ensures var t := Refetch(s, k, info).0;
            && Inv(t) && t == s.(params := t.params, log := t.log)
            && t.params == s.params[k := t.params[k]] && t.params[k].refreshNeeded && SameSeat(s.params[k], t.params[k])
            && t.params[k].isAdr == s.params[k].isAdr && t.params[k].handleValid == s.params[k].handleValid
  {
    if LacksInfo(s.params[k]) && info.Some? {
      LogFacts(s.log, Sized(k, info.value.size));
      AsideKeepsInv(s, Refetch(s, k, info).0, k, Sized(k, info.value.size));
    }
  }

  lemma SubscribeKeepsInv(s: State, k: nat, a: Answers)
    requires Inv(s) && 1 <= k < s.count && s.params[k].refreshNeeded
    requires s.params[k].isAdr || s.params[k].handleValid
    ensures Inv(Subscribe(s, k, a).0)
    ensures Subscribe(s, k, a).1 ==> ReadyToServe(Subscribe(s, k, a).0, k)
  {
    var (t, informed) := Refetch(s, k, a.refetch);
    RefetchKeepsFlagged(s, k, a.refetch);
    if informed && a.subscribeOk {
      LogFacts(t.log, Subscribed(k));
      AsideKeepsInv(t, Subscribe(s, k, a).0, k, Subscribed(k));
    }
  }

  lemma DeliverKeepsInv(s: State, k: nat, a: Answers)
    requires Inv(s) && 1 <= k < s.count && s.params[k].refreshNeeded && s.params[k].source == FromPlc
    requires s.params[k].isAdr || s.params[k].handleValid
    ensures Inv(Deliver(s, k, a).0)
  {
    var p := s.params[k];
    assert Assigned(p) ==> OwnsSlot(p, s.bulk[p.bulkIndex]);
    if !p.isIOIntr {
      CompleteKeepsInv(s, k);
    } else if Subscribes(p) {
      SubscribeKeepsInv(s, k, a);
      if Subscribe(s, k, a).1 {
        CompleteKeepsInv(Subscribe(s, k, a).0, k);
      }
    } else if !NoRoom(s, k) {
      AddKeepsInv(s, k, a);
      CompleteKeepsInv(AddToBulk(s, k, a), k);
    }
  }

  lemma OnlyPlcInputsAssigned(s: State, k: nat)
    requires Shape(s) && Indexed(s) && 1 <= k < s.count && Assigned(s.params[k])
    ensures s.params[k].source == FromPlc && s.params[k].isIOIntr && s.params[k].isBulkRead
  {
    assert OwnsSlot(s.params[k], s.bulk[s.params[k].bulkIndex]);
  }

  lemma DescribeKeepsInv(s: State, k: nat, q: Param)
    requires Inv(s) && 1 <= k < s.count && s.params[k].refreshNeeded && q.refreshNeeded && SameSeat(s.params[k], q)
    requires q.isAdr ==> q == s.params[k]
    ensures PlaceShape(q) && Inv(Describe(s, k, q))
  {
    if q.isAdr {
      assert Describe(s, k, q).params == s.params;
      CalmKeepsInv(s, Describe(s, k, q));
    } else {
      AsideKeepsInv(s, Describe(s, k, q), k, Sized(k, q.plcSize));
    }
  }

  lemma RehandleKeepsInv(s: State, k: nat, q: Param)
    requires Inv(s) && 1 <= k < s.count && s.params[k].refreshNeeded && q.refreshNeeded && SameSeat(s.params[k], q)
    requires q.plcSize == s.params[k].plcSize
    ensures PlaceShape(q) && Inv(SetParam(s, k, q))
  {
    CalmKeepsInv(s, SetParam(s, k, q));
  }

  /** Describing a parameter moves neither its place nor its flag, and a handle that is held is valid. */
  lemma DescribedSeat(p: Param, look: Lookup)
    requires Described(p, look).Some?
    ensures var d := Described(p, look).value; var (h, gotHandle) := Handled(d, look);
            && SameSeat(p, d) && d.refreshNeeded == p.refreshNeeded
            && SameSeat(p, h) && h.refreshNeeded == p.refreshNeeded
            && h.plcSize == d.plcSize && (d.isAdr ==> d == p) && (gotHandle ==> h.isAdr || h.handleValid)
  {
  }

  lemma UpdateFromPlcKeepsInv(s: State, k: nat, a: Answers)
    requires Inv(s) && 1 <= k < s.count && s.params[k].refreshNeeded && s.params[k].source == FromPlc
    ensures Inv(UpdateFromPlc(s, k, a).0)
  {
    var p := s.params[k];
    if Described(p, a.lookup).Some? {
      DescribedSeat(p, a.lookup);
      var d := Described(p, a.lookup).value;
      var (h, gotHandle) := Handled(d, a.lookup);
      DescribeKeepsInv(s, k, d);
      RehandleKeepsInv(Describe(s, k, d), k, h);
      if gotHandle {
        DeliverKeepsInv(SetParam(Describe(s, k, d), k, h), k, a);
      }
    }
  }

  lemma UpdateKeepsInv(s: State, k: nat, a: Answers)
    requires Inv(s) && 1 <= k < s.count && s.params[k].refreshNeeded
    ensures Inv(UpdateParam(s, k, a).0)
  {
    if s.params[k].source == FromPlc {
      UpdateFromPlcKeepsInv(s, k, a);
    } else {
      LocalUnassigned(s, k);
      CompleteKeepsInv(s, k);
    }
  }

  lemma LocalUnassigned(s: State, k: nat)
    requires Shape(s) && Indexed(s) && 1 <= k < s.count && s.params[k].source != FromPlc
    ensures !Assigned(s.params[k])
  {
    if Assigned(s.params[k]) {
      OnlyPlcInputsAssigned(s, k);
      assert false;
    }
  }

  lemma RefreshFromKeepsInv(s: State, port: u16, answers: nat -> Answers, k: nat)
    requires Inv(s) && 1 <= k <= s.count
    ensures Inv(RefreshFrom(s, port, answers, k))
    decreases s.count - k
  {
    if k < s.count {
      var update := Covers(port, s.params[k].amsPort) && s.params[k].refreshNeeded;
      if update {
        UpdateKeepsInv(s, k, answers(k));
      }
      RefreshFromKeepsInv(if update then UpdateParam(s, k, answers(k)).0 else s, port, answers, k + 1);
    }
  }

  /** Fields no invariant speaks about. */
  lemma OtherFieldsFree(s: State, t: State)
    requires Inv(s) && t.params == s.params && t.count == s.count && t.bulk == s.bulk
    requires t.log == s.log && t.asynNames == s.asynNames
    ensures Inv(t)
  {
    CalmKeepsInv(s, t);
  }

  lemma RefreshKeepsInv(s: State, port: u16, answers: nat -> Answers, notifyOk: bool)
    requires Inv(s)
    ensures Inv(Refresh(s, port, answers, notifyOk))
  {
    RefreshFromKeepsInv(s, port, answers, 1);
    var t := if s.connected then RefreshFrom(s, port, answers, 1) else s;
    OtherFieldsFree(t, Refresh(s, port, answers, notifyOk));
  }

  // ----- invalidateParams -----

  /** Read sizes are no part of where things are. */
  lemma ReadSizesFree(s: State, u: State)
    requires Shape(s) && Placed(s, 0) && u == s.(bulk := u.bulk) && |u.bulk| == MAXBULK
    requires forall i :: 0 <= i < MAXBULK ==> u.bulk[i] == s.bulk[i].(readSize := u.bulk[i].readSize)
    ensures Shape(u) && Placed(u, 0)
  {
    forall i | 0 <= i < MAXBULK && u.bulk[i].cnt != 0 ensures Opened(u.bulk[i]) {
      assert Opened(s.bulk[i]);
    }
    forall i, j | 0 <= i < MAXBULK && RESERVED <= j < u.bulk[i].cnt ensures HasOwner(u, i, j) {
      assert HasOwner(s, i, j);
      var l :| 1 <= l < s.count && Places(s.params[l], i, j);
      assert Places(u.params[l], i, j);
    }
    forall l | 1 <= l < u.count && Assigned(u.params[l])
      ensures OwnsSlot(u.params[l], u.bulk[u.params[l].bulkIndex])
    {
      assert OwnsSlot(s.params[l], s.bulk[s.params[l].bulkIndex]);
    }
    forall q: u16 ensures AssignedOn(u, q) == SlotsOn(u.bulk, q) {
      assert Fills(u.bulk, q) == Fills(s.bulk, q);
      assert AssignedOn(s, q) == SlotsOn(s.bulk, q);
    }
  }

  lemma InvalidateKeepsPlaced(s: State, port: u16)
    requires Shape(s) && Placed(s, 0)
    ensures Placed(Invalidate(s, port), 0)
  {
    var t := Invalidate(s, port);
    var u := s.(bulk := t.bulk);
    ReadSizesFree(s, u);
    LogFacts(s.log, Invalidated(port));
    ReseatedKeepsPlaced(u, t, 0);
  }

  lemma InvalidateKeepsReadSize(s: State, port: u16, i: nat)
    requires Shape(s) && Accounted(s) && i < MAXBULK
    ensures ReadSizeAdds(Invalidate(s, port).log, i, Invalidate(s, port).bulk[i])
  {
    var t := Invalidate(s, port);
    LogFacts(s.log, Invalidated(port));
    assert ReadSizeAdds(s.log, i, s.bulk[i]);
    if s.bulk[i].cnt > RESERVED {
      var n := s.bulk[i].cnt - RESERVED;
      if Covers(port, s.bulk[i].amsPort) {
        TotalZeros(SlotBytes(t.log, i, s.bulk[i].amsPort, n));
      } else {
        assert SlotBytes(t.log, i, s.bulk[i].amsPort, n) == SlotBytes(s.log, i, s.bulk[i].amsPort, n);
      }
    }
  }

  lemma InvalidateKeepsCurrent(s: State, port: u16)
    requires Shape(s) && Current(s)
    ensures Current(Invalidate(s, port))
  {
    var t := Invalidate(s, port);
    LogFacts(s.log, Invalidated(port));
    forall i | 0 <= i < MAXBULK ensures ReadSizeAdds(t.log, i, t.bulk[i]) {
      InvalidateKeepsReadSize(s, port, i);
    }
    forall k | 1 <= k < s.count ensures ServiceCovered(t.log, k, t.params[k]) && SyncedAt(t, k) {
      assert ServiceCovered(s.log, k, s.params[k]) && SyncedAt(s, k);
    }
  }

  lemma InvalidateKeepsInv(s: State, port: u16)
    requires Inv(s)
    ensures Inv(Invalidate(s, port))
  {
    InvalidateKeepsPlaced(s, port);
    InvalidateKeepsCurrent(s, port);
  }

  // ----- adsReadParam and adsWriteParam -----

  /** An unflagged parameter whose description is fetched again keeps its slot's
      address; whether it stays in step is a matter of the size. */
  lemma RefetchKeepsTracked(s: State, k: nat, info: SymInfo)
    requires Shape(s) && 1 <= k < s.count && LacksInfo(s.params[k]) && SyncedAt(s, k)
    ensures SyncedAt(Refetch(s, k, Some(info)).0, k)
  {
    LogFacts(s.log, Sized(k, info.size));
  }

  lemma RefetchKeepsInv(s: State, k: nat, info: SymInfo)
    requires Inv(s) && 1 <= k < s.count && LacksInfo(s.params[k])
    ensures Inv(Refetch(s, k, Some(info)).0)
  {
    var t := Refetch(s, k, Some(info)).0;
    LogFacts(s.log, Sized(k, info.size));
    ReseatedKeepsPlaced(s, t, 0);
    forall i | 0 <= i < MAXBULK ensures ReadSizeAdds(t.log, i, t.bulk[i]) {
      AsideKeepsReadSize(s, Sized(k, info.size), i);
    }
    forall l | 1 <= l < s.count ensures SyncedAt(t, l) && ServiceCovered(t.log, l, t.params[l]) {
      assert SyncedAt(s, l) && ServiceCovered(s.log, l, s.params[l]);
      if l == k {
        RefetchKeepsTracked(s, k, info);
      }
    }
  }

  lemma AccessKeepsInv(s: State, k: nat, d: Direct)
    requires Inv(s) && k < |s.params|
    ensures Inv(Access(s, k, d))
  {
    var (t, informed) := Refetch(s, k, d.refetch);
    if d.refused {
      return;
    }
    if LacksInfo(s.params[k]) && d.refetch.Some? {
      if 1 <= k < s.count {
        RefetchKeepsInv(s, k, d.refetch.value);
      } else {
        OutsideRefetchKeepsInv(s, k, d.refetch.value);
      }
    }
    if informed {
      HandleKeepsInv(t, k, d);
    }
  }

  /** Nothing that is recorded of a registered parameter changes with an entry that is not. */
  lemma OutsideKeepsOne(s: State, k: nat, info: SymInfo, l: nat)
    requires Inv(s) && k < |s.params| && !(1 <= k < s.count) && LacksInfo(s.params[k]) && 1 <= l < s.count
    ensures var t := Refetch(s, k, Some(info)).0; SyncedAt(t, l) && ServiceCovered(t.log, l, t.params[l])
  {
    assert SyncedAt(s, l) && ServiceCovered(s.log, l, s.params[l]);
    LogSnoc(s.log, Sized(k, info.size));
  }

  /** Of a table entry that is not registered nothing is known. */
  lemma OutsideRefetchKeepsInv(s: State, k: nat, info: SymInfo)
    requires Inv(s) && k < |s.params| && !(1 <= k < s.count) && LacksInfo(s.params[k])
    ensures Inv(Refetch(s, k, Some(info)).0)
  {
    var t := Refetch(s, k, Some(info)).0;
    LogFacts(s.log, Sized(k, info.size));
    ReseatedKeepsPlaced(s, t, 0);
    forall i | 0 <= i < MAXBULK ensures ReadSizeAdds(t.log, i, t.bulk[i]) {
      AsideKeepsReadSize(s, Sized(k, info.size), i);
    }
    forall l | 1 <= l < s.count ensures SyncedAt(t, l) && ServiceCovered(t.log, l, t.params[l]) {
      OutsideKeepsOne(s, k, info, l);
    }
  }

  /** A handle is asked for only where there is none, which an unflagged parameter with a slot has. */
  lemma AnsweredSeat(p: Param, d: Direct)
    ensures SameSeat(p, Answered(p, d)) && Answered(p, d).refreshNeeded == p.refreshNeeded
    ensures Answered(p, d).plcSize == p.plcSize
    ensures p.isAdr || p.handleValid ==> SameNeeds(p, Answered(p, d))
  {
  }

  lemma HandleKeepsInv(s: State, k: nat, d: Direct)
    requires Inv(s) && k < |s.params|
    ensures 1 <= k < s.count ==> PlaceShape(Answered(s.params[k], d))
    ensures Inv(SetParam(s, k, Answered(s.params[k], d)))
  {
    var p := s.params[k];
    AnsweredSeat(p, d);
    if 1 <= k < s.count {
      assert PlaceShape(p) && SyncedAt(s, k);
    }
    if 1 <= k < s.count && !p.refreshNeeded && !Assigned(p) {
      UnassignedKeepsInv(s, k, Answered(p, d));
    } else {
      CalmKeepsInv(s, SetParam(s, k, Answered(p, d)));
    }
  }

  /** Nothing is known of the handle of a parameter that has no slot. */
  lemma UnassignedKeepsInv(s: State, k: nat, q: Param)
    requires Inv(s) && 1 <= k < s.count && !Assigned(s.params[k]) && SameSeat(s.params[k], q)
    requires q.refreshNeeded == s.params[k].refreshNeeded && q.plcSize == s.params[k].plcSize
    ensures PlaceShape(q) && Inv(SetParam(s, k, q))
  {
    var t := SetParam(s, k, q);
    ReseatedKeepsPlaced(s, t, 0);
    forall l | 1 <= l < s.count ensures SyncedAt(t, l) && ServiceCovered(t.log, l, t.params[l]) {
      assert SyncedAt(s, l) && ServiceCovered(s.log, l, s.params[l]);
    }
  }

  // ----- bulkReadThread -----

  lemma PollKeepsInv(s: State, i: nat, data: seq<byte>)
    requires Inv(s) && i < MAXBULK
    ensures Inv(Poll(s, i, data))
  {
    var t := Poll(s, i, data);
    assert forall k :: 0 <= k < |s.params| ==> Touched(s.params[k], t.params[k]);
    CalmKeepsInv(s, t);
  }

  // ----- drvUserCreate -----

  /** Writing the table entry behind the registered ones changes nothing. */
  lemma ScratchKeepsInv(s: State, t: State)
    requires Inv(s) && Shape(t) && t.count == s.count && t.bulk == s.bulk && t.log == s.log
    requires |t.params| == |s.params| && t.params[..s.count] == s.params[..s.count]
    requires |s.asynNames| <= |t.asynNames|
    ensures Inv(t)
  {
    assert forall k :: 0 <= k < s.count ==> t.params[k] == t.params[..s.count][k] == s.params[..s.count][k] == s.params[k];
    var u := s.(asynNames := t.asynNames);
    assert Inv(u) by {
      forall i, j | 0 <= i < MAXBULK && RESERVED <= j < u.bulk[i].cnt ensures HasOwner(u, i, j) {
        assert HasOwner(s, i, j);
      }
      forall q: u16 ensures AssignedOn(u, q) == SlotsOn(u.bulk, q) {
        assert AssignedOn(s, q) == SlotsOn(s.bulk, q);
      }
      forall l | 1 <= l < u.count ensures SyncedAt(u, l) {
        assert SyncedAt(s, l);
      }
    }
    CalmKeepsInv(u, t);
  }

  /** One more registered parameter, not yet assigned and not yet up to date. */
  lemma AppendKeepsInv(s: State, t: State)
    requires Inv(s) && t.count == s.count + 1 <= |s.params|
    requires t == s.(count := t.count, created := t.created, connected := t.connected)
    requires s.params[s.count].bulkIndex == -1 && s.params[s.count].refreshNeeded
    requires s.count < |s.asynNames| && s.params[s.count].paramIndex == |s.asynNames| - 1
    requires forall k :: 0 <= k < s.count ==> s.params[k].paramIndex <= k + |s.asynNames| - s.count - 1
    ensures Inv(t)
  {
    AppendKeepsIndex(s, t);
    AppendKeepsCounts(s, t);
    AppendKeepsCurrent(s, t);
  }

  lemma AppendKeepsCurrent(s: State, t: State)
    requires Shape(s) && Current(s) && Shape(t)
    requires t == s.(count := t.count, created := t.created, connected := t.connected) && t.count == s.count + 1
    requires s.params[s.count].bulkIndex == -1 && s.params[s.count].refreshNeeded
    ensures Current(t)
  {
    forall l | 1 <= l < t.count ensures SyncedAt(t, l) && ServiceCovered(t.log, l, t.params[l]) {
      assert l < s.count ==> SyncedAt(s, l) && ServiceCovered(s.log, l, s.params[l]);
    }
  }

  lemma AppendKeepsCounts(s: State, t: State)
    requires Shape(s) && Counted(s) && Shape(t)
    requires t.count == s.count + 1 && t.params == s.params && t.bulk == s.bulk
    requires s.params[s.count].bulkIndex == -1
    ensures Counted(t)
  {
    forall q: u16 ensures AssignedOn(t, q) == SlotsOn(t.bulk, q) {
      assert OnPort(t.params[1..t.count], q) == OnPort(s.params[1..s.count], q) + [0];
      TotalSnoc(OnPort(s.params[1..s.count], q), 0);
      assert AssignedOn(s, q) == SlotsOn(s.bulk, q);
    }
  }

  lemma AppendKeepsIndex(s: State, t: State)
    requires Shape(s) && Indexed(s) && Shape(t)
    requires t.count == s.count + 1 && t.params == s.params && t.bulk == s.bulk
    requires s.params[s.count].bulkIndex == -1
    ensures Indexed(t)
  {
    forall i, j | 0 <= i < MAXBULK && RESERVED <= j < t.bulk[i].cnt ensures HasOwner(t, i, j) {
      assert HasOwner(s, i, j);
      var l :| 1 <= l < s.count && Places(s.params[l], i, j);
      assert Places(t.params[l], i, j);
    }
  }

  lemma NotEnteredKeepsInv(s: State, c: Creation)
    requires Inv(s) && !Enter(s, c).1
    ensures Inv(Enter(s, c).0)
  {
    ScratchKeepsInv(s, Enter(s, c).0);
  }

  lemma EnteredKeepsInv(s: State, c: Creation)
    requires Inv(s) && Enter(s, c).1
    ensures Inv(Enter(s, c).0) && Enter(s, c).0.params[s.count].refreshNeeded
  {
    var t := Enter(s, c).0;
    var before := t.(count := s.count, created := s.created, connected := s.connected);
    ScratchKeepsInv(s, before);
    AppendKeepsInv(before, t);
  }

  lemma EnterKeepsInv(s: State, c: Creation)
    requires Inv(s)
    ensures Inv(Enter(s, c).0)
    ensures Enter(s, c).1 ==> Enter(s, c).0.params[s.count].refreshNeeded
  {
    if Enter(s, c).1 {
      EnteredKeepsInv(s, c);
    } else {
      NotEnteredKeepsInv(s, c);
    }
  }

  lemma CreateKeepsInv(s: State, c: Creation)
    requires Inv(s)
    ensures Inv(Create(s, c))
  {
    EnterKeepsInv(s, c);
    var (t, entered) := Enter(s, c);
    if entered {
      UpdateKeepsInv(t, s.count, c.answers);
    }
  }

  // ----- every step, every run -----

  lemma SuperviseKeepsInv(s: State, i: nat, running: bool, answers: nat -> Answers, notifyOk: bool)
    requires Inv(s) && i < |s.ports|
    ensures Inv(SupervisePort(s, i, running, answers, notifyOk))
  {
    var port := s.ports[i];
    var seen := s.(ports := s.ports[i := port.(connected := running)]);
    OtherFieldsFree(s, seen);
    RefreshKeepsInv(seen, port.amsPort, answers, notifyOk);
    var renewed := if running && port.refreshNeeded then Refresh(seen, port.amsPort, answers, notifyOk) else seen;
    if port.connected && !running {
      InvalidateKeepsInv(renewed, port.amsPort);
      OtherFieldsFree(Invalidate(renewed, port.amsPort), SupervisePort(s, i, running, answers, notifyOk));
    }
  }

  lemma StepKeepsInv(s: State, step: Step)
    requires Inv(s)
    ensures Inv(Apply(s, step))
  {
    match step
    case StepCreate(c) => CreateKeepsInv(s, c);
    case StepInvalidate(port) => InvalidateKeepsInv(s, port);
    case StepRefresh(port, answers, ok) => RefreshKeepsInv(s, port, answers, ok);
    case StepSymbols(port, answers, ok) =>
      InvalidateKeepsInv(s, port);
      RefreshKeepsInv(Invalidate(s, port), port, answers, ok);
    case StepSupervise(i, running, answers, ok) =>
      if i < |s.ports| {
        SuperviseKeepsInv(s, i, running, answers, ok);
      }
    case StepPoll(i, data) =>
      if i < MAXBULK {
        PollKeepsInv(s, i, data);
      }
    case StepAccess(k, d) =>
      if k < |s.params| {
        AccessKeepsInv(s, k, d);
      }
    case StepConnected(on) => OtherFieldsFree(s, s.(connected := on));
    case StepStart => OtherFieldsFree(s, s.(bulkOK := true));
  }

  lemma InitInv(tableSize: nat, chunk: Chunk, defaultPort: u16)
    requires tableSize >= 1 && ChunkShape(chunk)
    ensures Inv(Init(tableSize, chunk, defaultPort))
    ensures NoneLost(Init(tableSize, chunk, defaultPort))
  {
    var s := Init(tableSize, chunk, defaultPort);
    forall q: u16 ensures AssignedOn(s, q) == SlotsOn(s.bulk, q) {
      TotalZeros(Fills(s.bulk, q));
      TotalZeros(OnPort(s.params[1..s.count], q));
    }
  }

  lemma {:induction false} RunKeepsInv(s: State, steps: seq<Step>)
    requires Inv(s)
    ensures Inv(Run(s, steps))
  {
    if steps != [] {
      RunKeepsInv(s, steps[..|steps| - 1]);
      StepKeepsInv(Run(s, steps[..|steps| - 1]), steps[|steps| - 1]);
    }
  }
}
