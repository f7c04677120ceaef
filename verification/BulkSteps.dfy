/** What single steps of the driver do to the fields they are about, and that
    they leave the others alone. */
module BulkSteps {
  import opened Bytes
  import opened BulkModel
  import opened BulkInvariants
  import opened BulkProofs
  import BulkTheorems
  import opened BulkAccounts
  import DrvInfo

  // ----- creation -----

  /** A creation registers a parameter exactly when its link is valid and new,
      there is room in the table, the link is understood and its record found,
      and asyn has no parameter of that name and an address for it. */
  lemma EnteredIff(s: State, c: Creation)
    requires Shape(s)
    ensures Create(s, c).count == s.count + 1
            <==> DrvInfo.IsValid(c.drvInfo) && c.drvInfo !in s.created && s.count + 1 < |s.params|
                 && c.parsed.Some? && c.recordFound && c.drvInfo !in s.asynNames && c.addressOk
    ensures Create(s, c).count == s.count || Create(s, c).count == s.count + 1
  {
    BulkTheorems.StepCount(s, StepCreate(c));
  }

  /** The new entry is what the link says, in the next place of the table, flagged
      and without a slot; a name is never given away twice, and the port is known from then on. */
  lemma EntryMeans(s: State, c: Creation)
    requires Shape(s) && Enter(s, c).1
    ensures var q := c.parsed.value; var t := Enter(s, c).0; var p, was := t.params[s.count], s.params[s.count];
            && p.amsPort == q.amsPort && p.isIOIntr == q.isIOIntr && p.isBulkRead == q.isBulkRead
            && p.isAdr == q.isAdr && p.source == q.source && p.paramIndex == |s.asynNames|
            && p.refreshNeeded && p.bulkIndex == -1 && p.absValid == q.isAdr
            && (q.isAdr ==> p.absGroup == q.absGroup && p.absOffset == q.absOffset && p.plcSize == q.size)
            && (q.source == FromDriver ==> p.plcSize == q.size)
            && p.value == was.value && p.handle == was.handle && p.handleValid == was.handleValid
            && t.params == s.params[s.count := p] && t.asynNames == s.asynNames + [c.drvInfo]
            && t.created == s.created[c.drvInfo := |s.asynNames|] && t.bulk == s.bulk && t.log == s.log
            && t.connected == (s.connected || c.connectOk)
            && PortKnown(s.ports, t.ports, q.amsPort)
  {
    PortAdded(s.ports, c.parsed.value.amsPort);
  }

  /** A new parameter is brought up to date at once exactly if its values come from
      the PLC and the driver counts as connected by then; otherwise nothing is asked for. */
  lemma CreateUpdates(s: State, c: Creation)
    requires Shape(s)
    ensures var (t, entered) := Enter(s, c); var r := Create(s, c);
            if entered && (s.connected || c.connectOk) && c.parsed.value.source == FromPlc
            then r == UpdateParam(t, s.count, c.answers).0
            else r == t && r.log == s.log && r.bulk == s.bulk && r.ts == s.ts
  {
  }

  /** The port is in the list, which has grown by it only if it was not. */
  ghost predicate PortKnown(before: seq<PortInfo>, after: seq<PortInfo>, port: u16) {
    && (exists i :: 0 <= i < |after| && after[i].amsPort == port)
    && (after == before
        || (after == before + [PortInfo(port, false, false)]
            && forall i :: 0 <= i < |before| ==> before[i].amsPort != port))
  }

  lemma PortAdded(ports: seq<PortInfo>, port: u16)
    ensures PortKnown(ports, AddPort(ports, port), port)
  {
    if forall i :: 0 <= i < |ports| ==> ports[i].amsPort != port {
      assert AddPort(ports, port)[|ports|].amsPort == port;
    }
  }

  // ----- one parameter brought up to date -----

  /** The PLC gives everything that is asked for: a description, unless the dictionary
      has one or it is an address command; a buffer; a handle likewise; and for an
      input a subscription, for which the description is fetched if there is none of
      its own, or room in a bulk read if it is within the limit. */
  ghost predicate AllGiven(s: State, k: nat, a: Answers)
    requires Shape(s) && 1 <= k < s.count
  {
    var p := s.params[k];
    var size := if p.isAdr then p.plcSize else if a.lookup.DictHit? then a.lookup.size
                else if a.lookup.info.Some? then a.lookup.info.value.size else 0;
    && (p.isAdr || a.lookup.DictHit? || (a.lookup.info.Some? && a.lookup.given.Some?))
    && a.bufferOk
    && (p.isIOIntr ==>
          if !p.isBulkRead || size > 0x10_0000
          then a.subscribeOk && (p.absValid || (!p.isAdr && (a.lookup.Asked? || a.refetch.Some?)))
          else !NoRoom(s, k))
  }

  /** An update succeeds, and takes the flag down, exactly when it is given all it
      asks for, or the parameter's values do not come from the PLC; otherwise the
      flag stays as it was. */
  lemma UpdatedIff(s: State, k: nat, a: Answers)
    requires Shape(s) && 1 <= k < s.count
    ensures var (t, ok) := UpdateParam(s, k, a);
            && (ok <==> s.params[k].source != FromPlc || AllGiven(s, k, a))
            && t.params[k].refreshNeeded == (s.params[k].refreshNeeded && !ok)
            && (ok ==> t.log != [] && t.log[|t.log| - 1] == Completed(k))
  {
    var p := s.params[k];
    DescriptionGiven(p, a.lookup);
    if p.source == FromPlc && Described(p, a.lookup).Some? {
      var d := Described(p, a.lookup).value;
      DescribedSeat(p, a.lookup);
      RehandledIff(s, Describe(s, k, d), k, d, a);
    }
  }

  lemma RehandledIff(s: State, t: State, k: nat, d: Param, a: Answers)
    requires Shape(s) && Shape(t) && 1 <= k < s.count == t.count && t.bulk == s.bulk && t.params == s.params[k := d]
    requires Described(s.params[k], a.lookup) == Some(d) && s.params[k].source == FromPlc && t == Describe(s, k, d)
    ensures var (h, gotHandle) := Handled(d, a.lookup); var (r, ok) := UpdateParam(s, k, a);
            && (ok <==> a.bufferOk && gotHandle
                        && (h.isIOIntr ==>
                              if !h.isBulkRead || h.plcSize > 0x10_0000
                              then a.subscribeOk && (h.absValid || (!h.isAdr && a.refetch.Some?))
                              else !NoRoom(s, k)))
            && r.params[k].refreshNeeded == (s.params[k].refreshNeeded && !ok)
            && (ok ==> r.log != [] && r.log[|r.log| - 1] == Completed(k))
  {
    DescribedSeat(s.params[k], a.lookup);
    var (h, gotHandle) := Handled(d, a.lookup);
    var u := SetParam(t, k, h);
    assert NoRoom(u, k) == NoRoom(s, k);
    DeliveredIff(u, k, a);
  }

  /** What a description and a handle make of the fields an update looks at. */
  lemma DescriptionGiven(p: Param, look: Lookup)
    ensures Described(p, look).Some? <==> p.isAdr || look.DictHit? || look.info.Some?
    ensures Described(p, look).Some? ==>
              var (h, gotHandle) := Handled(Described(p, look).value, look);
              && (gotHandle <==> p.isAdr || look.DictHit? || look.given.Some?)
              && h.plcSize == (if p.isAdr then p.plcSize else if look.DictHit? then look.size else look.info.value.size)
              && h.absValid == (p.absValid || (!p.isAdr && look.Asked?))
              && h.isAdr == p.isAdr && h.isIOIntr == p.isIOIntr && h.isBulkRead == p.isBulkRead
  {
  }

  lemma DeliveredIff(s: State, k: nat, a: Answers)
    requires Shape(s) && 1 <= k < s.count
    ensures var p := s.params[k]; var (t, ok) := Deliver(s, k, a);
            && (ok <==> (p.isIOIntr ==>
                           if !p.isBulkRead || p.plcSize > 0x10_0000
                           then a.subscribeOk && (p.absValid || (!p.isAdr && a.refetch.Some?))
                           else !NoRoom(s, k)))
            && t.params[k].refreshNeeded == (p.refreshNeeded && !ok)
            && (ok ==> t.log != [] && t.log[|t.log| - 1] == Completed(k))
  {
    SubscribedIff(s, k, a);
  }

  lemma SubscribedIff(s: State, k: nat, a: Answers)
    requires Shape(s) && k < |s.params|
    ensures var p := s.params[k]; var (t, ok) := Subscribe(s, k, a);
            && (ok <==> a.subscribeOk && (p.absValid || (!p.isAdr && a.refetch.Some?)))
            && t.params[k].refreshNeeded == p.refreshNeeded
  {
  }

  // ----- supervision -----

  /** A supervision visit does more than note whether the port is running only
      where the port is back and marked, which refreshes it, or was lost. */
  lemma SuperviseQuiet(s: State, i: nat, running: bool, answers: nat -> Answers, notifyOk: bool)
    requires Shape(s) && i < |s.ports|
    ensures var seen := s.(ports := s.ports[i := s.ports[i].(connected := running)]);
            var t := SupervisePort(s, i, running, answers, notifyOk);
            && (running && s.ports[i].refreshNeeded ==> t == Refresh(seen, s.ports[i].amsPort, answers, notifyOk))
            && (running && !s.ports[i].refreshNeeded ==> t == seen)
            && (!running && !s.ports[i].connected ==> t == s)
  {
  }

  // ----- invalidation and refresh -----

  predicate OfPort(port: u16, p: u16) {
    port == 0 || p == port
  }

  /** An invalidation flags the registered parameters and the time-stamp handles of
      the port, or of all, sets the read size of its chunks in use to that of the
      time slots, and stops the bulk reads. Nothing else changes. */
  lemma InvalidateMeans(s: State, port: u16)
    requires Shape(s)
    ensures var t := Invalidate(s, port);
            && |t.params| == |s.params| && |t.ts| == |s.ts| && !t.bulkOK
            && (forall k :: 0 <= k < |s.params| ==>
                  t.params[k] == s.params[k].(refreshNeeded :=
                    s.params[k].refreshNeeded || (1 <= k < s.count && OfPort(port, s.params[k].amsPort))))
            && (forall i :: 0 <= i < |s.ts| ==>
                  t.ts[i] == s.ts[i].(refreshNeeded := s.ts[i].refreshNeeded || OfPort(port, s.ts[i].amsPort)))
            && (forall i :: 0 <= i < MAXBULK ==>
                  t.bulk[i] == s.bulk[i].(readSize :=
                    if s.bulk[i].cnt != 0 && OfPort(port, s.bulk[i].amsPort) then 16 else s.bulk[i].readSize))
            && t == s.(params := t.params, ts := t.ts, bulk := t.bulk, bulkOK := false, log := t.log)
  {
  }

  /** A parameter that is not flagged, or is not of the port, is left as it is, with its history. */
  lemma {:induction false} RefreshSkips(s: State, port: u16, answers: nat -> Answers, from: nat, k: nat)
    requires Shape(s) && 1 <= from <= s.count && k < |s.params|
    requires 1 <= k < s.count ==> !s.params[k].refreshNeeded || !OfPort(port, s.params[k].amsPort)
    ensures Untouched(s, RefreshFrom(s, port, answers, from), k)
    decreases s.count - from
  {
    if from < s.count {
      var update := Covers(port, s.params[from].amsPort) && s.params[from].refreshNeeded;
      if update {
        UpdateLeaves(s, from, answers(from), k);
      }
      RefreshSkips(if update then UpdateParam(s, from, answers(from)).0 else s, port, answers, from + 1, k);
    }
  }

  /** Some state that has parameter `k` and its history as `s` has them, and what an update then leaves is in `t`. */
  ghost predicate UpdatedOnce(s: State, t: State, k: nat, a: Answers)
    requires 1 <= k < s.count
  {
    exists m: State :: Shape(m) && k < m.count && Untouched(s, m, k) && Untouched(UpdateParam(m, k, a).0, t, k)
  }

  /** A flagged parameter of the port is updated once, with what the PLC answers for it. */
  lemma {:induction false} RefreshUpdates(s: State, port: u16, answers: nat -> Answers, from: nat, k: nat, r: State)
    requires Shape(s) && 1 <= from <= k < s.count && s.params[k].refreshNeeded && OfPort(port, s.params[k].amsPort)
    requires r == RefreshFrom(s, port, answers, from)
    ensures UpdatedOnce(s, r, k, answers(k))
    decreases s.count - from
  {
    var t, next := OneOn(s, port, answers, from), from + 1;
    OneOnGoesOn(s, port, answers, from, next);
    if from == k {
      RefreshLeaves(t, port, answers, next, k);
      UpdatedNow(s, r, k, answers(k));
    } else {
      OneOnLeaves(s, port, answers, from, k);
      RefreshUpdates(t, port, answers, next, k, r);
      UpdatedLater(s, t, r, k, answers(k));
    }
  }

  lemma UpdatedNow(s: State, t: State, k: nat, a: Answers)
    requires Shape(s) && 1 <= k < s.count && Untouched(UpdateParam(s, k, a).0, t, k)
    ensures UpdatedOnce(s, t, k, a)
  {
    assert Untouched(s, s, k);
  }

  lemma UpdatedLater(s: State, m: State, t: State, k: nat, a: Answers)
    requires 1 <= k < s.count && k < m.count && Untouched(s, m, k) && UpdatedOnce(m, t, k, a)
    ensures UpdatedOnce(s, t, k, a)
  {
    var n: State :| Shape(n) && k < n.count && Untouched(m, n, k) && Untouched(UpdateParam(n, k, a).0, t, k);
    assert Untouched(s, n, k);
  }

  /** A refresh takes down the mark of its port exactly when the driver counts as
      connected and the symbol callback could be renewed; other ports keep theirs. */
  lemma RefreshRenews(s: State, port: u16, answers: nat -> Answers, notifyOk: bool, i: nat)
    requires Shape(s) && i < |s.ports|
    ensures var t := Refresh(s, port, answers, notifyOk);
            && t.ports[i].amsPort == s.ports[i].amsPort && t.ports[i].connected == s.ports[i].connected
            && (t.ports[i].refreshNeeded
                <==> s.ports[i].refreshNeeded && !(s.connected && notifyOk && s.ports[i].amsPort == port))
            && t.bulkOK && t.count == s.count && t.connected == s.connected
  {
    RefreshKeepsPorts(s, port, answers, 1);
  }

  // ----- time stamps and new chunks -----

  /** There is an entry for the port; its handles are those asked for, each where
      it was given, and it stays stale unless both were. An entry that was not
      stale is left as it is, and so is every other. */
  lemma TimeStampAsked(ts: seq<TsEntry>, port: u16, a: Answers)
    ensures var r := RefreshTs(ts, port, a); var i := FindTs(ts, port);
            && r[i].amsPort == port
            && (forall j :: 0 <= j < i ==> ts[j].amsPort != port)
            && |r| == (if i < |ts| then |ts| else |ts| + 1)
            && (forall j :: 0 <= j < |ts| && j != i ==> r[j] == ts[j])
            && (i < |ts| && !ts[i].refreshNeeded ==> r[i] == ts[i])
            && (i == |ts| || ts[i].refreshNeeded ==>
                  && r[i].refreshNeeded == !(a.tsHigh.Some? && a.tsLow.Some?)
                  && (a.tsHigh.Some? ==> r[i].handleH == a.tsHigh.value)
                  && (a.tsLow.Some? ==> r[i].handleL == a.tsLow.value))
  {
  }

  /** The first parameter of a chunk opens it: it is then of the parameter's port
      and reads, in front of the parameter, the high and the low word of the PLC
      time by the handles of the port, or four bytes of memory twice while those are stale. */
  lemma ChunkOpened(s: State, k: nat, a: Answers)
    requires Shape(s) && 1 <= k < s.count && FirstFit(s.bulk, s.params[k].amsPort) < MAXBULK
    requires s.bulk[FirstFit(s.bulk, s.params[k].amsPort)].cnt == 0
    ensures var port := s.params[k].amsPort; var t := Place(s, k, a); var i := t.params[k].bulkIndex;
            var n := FindTs(s.ts, port); var c := t.bulk[i];
            && 0 <= i < MAXBULK && n < |t.ts| && t.ts == RefreshTs(s.ts, port, a)
            && c.amsPort == port && c.cnt == 3 && c.readSize == 16 && t.params[k].bulkOffset == 2
            && c.paramID[2] == s.params[k].paramIndex
            && c.sum[0] == (if t.ts[n].refreshNeeded then Request(0x4020, 0, 4) else Request(0xF005, t.ts[n].handleH, 4))
            && c.sum[1] == (if t.ts[n].refreshNeeded then Request(0x4020, 0, 4) else Request(0xF005, t.ts[n].handleL, 4))
            && (forall j :: 0 <= j < MAXBULK && j != i ==> t.bulk[j] == s.bulk[j])
  {
  }
}
