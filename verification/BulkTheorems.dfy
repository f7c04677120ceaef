/** What the bulk-read index promises in every reachable state: optimal packing,
    inverse and stable indices, reply-size accounting and freshness. */
module BulkTheorems {
  import opened Bytes
  import opened BulkModel
  import opened BulkInvariants
  import opened BulkProofs

  const CAPACITY: nat := BULKSIZ - RESERVED

  ghost predicate Reachable(s: State) {
    exists tableSize: nat, chunk: Chunk, port: u16, steps: seq<Step> ::
      tableSize >= 1 && ChunkShape(chunk) && s == Run(Init(tableSize, chunk, port), steps)
  }

  lemma ReachableInv(s: State)
    requires Reachable(s)
    ensures Inv(s)
  {
    var tableSize: nat, chunk: Chunk, port: u16, steps: seq<Step> :|
      tableSize >= 1 && ChunkShape(chunk) && s == Run(Init(tableSize, chunk, port), steps);
    InitInv(tableSize, chunk, port);
    RunKeepsInv(Init(tableSize, chunk, port), steps);
  }

  // ----- packing -----

  predicate Serves(c: Chunk, port: u16) {
    c.cnt != 0 && c.amsPort == port
  }

  function ChunksOn(bulk: seq<Chunk>, port: u16): int {
    Total(seq(|bulk|, i requires 0 <= i < |bulk| => if Serves(bulk[i], port) then 1 else 0))
  }

  /** Slots left free in the chunks of a port. */
  function FreeSlots(bulk: seq<Chunk>, port: u16): (r: seq<int>)
    ensures |r| == |bulk|
  {
    seq(|bulk|, i requires 0 <= i < |bulk| => if Serves(bulk[i], port) then BULKSIZ - bulk[i].cnt else 0)
  }

  lemma {:induction false} FreeIsRest(bulk: seq<Chunk>, port: u16)
    ensures Total(FreeSlots(bulk, port)) == CAPACITY * ChunksOn(bulk, port) - SlotsOn(bulk, port)
  {
    if bulk != [] {
      var n := |bulk| - 1;
      FreeIsRest(bulk[..n], port);
      assert FreeSlots(bulk, port)[..n] == FreeSlots(bulk[..n], port);
      assert Fills(bulk, port)[..n] == Fills(bulk[..n], port);
      var ones := seq(|bulk|, i requires 0 <= i < |bulk| => if Serves(bulk[i], port) then 1 else 0);
      assert ones[..n] == seq(n, i requires 0 <= i < n => if Serves(bulk[..n][i], port) then 1 else 0);
    }
  }

  lemma {:induction false} TotalOfOne(xs: seq<int>, k: nat)
    requires k < |xs| && forall i :: 0 <= i < |xs| && i != k ==> xs[i] == 0
    ensures Total(xs) == xs[k]
  {
    TotalUpdate(xs, k, 0);
    TotalZeros(xs[k := 0]);
  }

  /** A chunk of the port that still has room is the only one that has. */
  lemma FreeInOneChunk(bulk: seq<Chunk>, port: u16, k: nat)
    requires (forall i :: 0 <= i < |bulk| ==> ChunkShape(bulk[i])) && Packed(bulk)
    requires k < |bulk| && Serves(bulk[k], port) && bulk[k].cnt != BULKSIZ
    ensures Total(FreeSlots(bulk, port)) == BULKSIZ - bulk[k].cnt
  {
    TotalOfOne(FreeSlots(bulk, port), k);
  }

  lemma CapacityArithmetic(chunks: int, slots: int)
    requires 0 <= CAPACITY * chunks - slots < CAPACITY
    ensures (slots + CAPACITY - 1) / CAPACITY == chunks
    ensures slots % CAPACITY == 0 <==> slots == CAPACITY * chunks
  {
  }

  /** The free slots of a port never amount to a whole chunk, and amount to
      nothing exactly when its chunks are full. */
  lemma FreeSlotsBounded(bulk: seq<Chunk>, port: u16)
    requires (forall i :: 0 <= i < |bulk| ==> ChunkShape(bulk[i])) && Packed(bulk)
    ensures 0 <= Total(FreeSlots(bulk, port)) < CAPACITY
    ensures Total(FreeSlots(bulk, port)) == 0
            <==> forall i :: 0 <= i < |bulk| && Serves(bulk[i], port) ==> bulk[i].cnt == BULKSIZ
  {
    if k :| 0 <= k < |bulk| && Serves(bulk[k], port) && bulk[k].cnt != BULKSIZ {
      FreeInOneChunk(bulk, port, k);
      assert Opened(bulk[k]);
    } else {
      TotalZeros(FreeSlots(bulk, port));
    }
  }

  /** First fit uses, for each port, exactly as many chunks as its parameters need. */
  lemma ChunksAreCeiling(s: State, port: u16)
    requires Inv(s)
    ensures ChunksOn(s.bulk, port) == (AssignedOn(s, port) + 497) / 498
    ensures 498 * (ChunksOn(s.bulk, port) - 1) < AssignedOn(s, port) <= 498 * ChunksOn(s.bulk, port)
  {
    FreeIsRest(s.bulk, port);
    FreeSlotsBounded(s.bulk, port);
    assert AssignedOn(s, port) == SlotsOn(s.bulk, port);
    CapacityArithmetic(ChunksOn(s.bulk, port), SlotsOn(s.bulk, port));
  }

  /** No other packing of at least as many parameters of the port needs fewer chunks. */
  lemma NoPackingUsesFewer(s: State, port: u16, other: seq<Chunk>)
    requires Inv(s)
    requires forall i :: 0 <= i < |other| ==> other[i].cnt <= BULKSIZ
    requires AssignedOn(s, port) <= SlotsOn(other, port)
    ensures ChunksOn(s.bulk, port) <= ChunksOn(other, port)
  {
    ChunksAreCeiling(s, port);
    FreeIsRest(other, port);
    var none := seq(|other|, i => 0);
    TotalZeros(none);
    TotalCompare(none, FreeSlots(other, port));
  }

  /** The chunks of a port have no room exactly when its parameters fill whole chunks. */
  lemma FullIff(s: State, port: u16)
    requires Inv(s)
    ensures (forall i :: 0 <= i < MAXBULK && Serves(s.bulk[i], port) ==> s.bulk[i].cnt == BULKSIZ)
            <==> AssignedOn(s, port) % 498 == 0
  {
    FreeIsRest(s.bulk, port);
    FreeSlotsBounded(s.bulk, port);
    assert AssignedOn(s, port) == SlotsOn(s.bulk, port);
    CapacityArithmetic(ChunksOn(s.bulk, port), SlotsOn(s.bulk, port));
  }

  /** A parameter is refused exactly when every chunk is in use and its port's chunks are all full. */
  lemma RefusedIff(s: State, k: nat)
    requires Inv(s) && 1 <= k < s.count && !Assigned(s.params[k])
    ensures var port := s.params[k].amsPort;
            NoRoom(s, k) <==> s.bulk[1999].cnt != 0 && AssignedOn(s, port) % 498 == 0
  {
    var port := s.params[k].amsPort;
    FullIff(s, port);
    var i := FirstFit(s.bulk, port);
    if i < MAXBULK {
      assert Fits(s.bulk[i], port);
      assert i < MAXBULK - 1 && s.bulk[i].cnt == 0 ==> s.bulk[MAXBULK - 1].cnt == 0;
    } else {
      assert forall j :: 0 <= j < MAXBULK ==> !Fits(s.bulk[j], port);
    }
  }

  // ----- indices -----

  /** With no asyn parameter lost, a slot's reverse index is the table position
      of its one owner, so the decoder always finds the parameter. */
  lemma SlotNamesItsOwner(s: State, i: nat, j: nat)
    requires Inv(s) && NoneLost(s) && i < MAXBULK && RESERVED <= j < s.bulk[i].cnt
    ensures var k := s.bulk[i].paramID[j];
            && 1 <= k < s.count
            && s.params[k].paramIndex == k
            && Places(s.params[k], i, j)
            && s.params[k].amsPort == s.bulk[i].amsPort
            && (forall l :: 1 <= l < s.count && Places(s.params[l], i, j) ==> l == k)
  {
    assert HasOwner(s, i, j);
    var k :| 1 <= k < s.count && Places(s.params[k], i, j);
    assert OwnsSlot(s.params[k], s.bulk[i]);
    assert k <= s.params[k].paramIndex <= k;
  }

  // ----- assignments never move -----

  /** An address command stays one, with its address and its size. */
  predicate SameAddress(p: Param, q: Param) {
    && q.isAdr == p.isAdr
    && (p.isAdr ==> q.absGroup == p.absGroup && q.absOffset == p.absOffset && q.plcSize == p.plcSize
                    && q.absValid == p.absValid)
  }

  ghost predicate Stays(s: State, t: State) {
    && s.count <= t.count && s.count <= |s.params| && t.count <= |t.params|
    && (forall k :: 0 <= k < s.count ==>
          && t.params[k].paramIndex == s.params[k].paramIndex
          && t.params[k].amsPort == s.params[k].amsPort
          && SameAddress(s.params[k], t.params[k]))
    && (forall k :: 1 <= k < s.count && Assigned(s.params[k]) ==>
          Places(t.params[k], s.params[k].bulkIndex, s.params[k].bulkOffset))
  }

  lemma StaysThenStays(s: State, t: State, r: State)
    requires Stays(s, t) && Stays(t, r)
    ensures Stays(s, r)
  {
    forall k | 1 <= k < s.count && Assigned(s.params[k])
      ensures Places(r.params[k], s.params[k].bulkIndex, s.params[k].bulkOffset)
    {
      assert Places(t.params[k], s.params[k].bulkIndex, s.params[k].bulkOffset);
      assert Places(r.params[k], t.params[k].bulkIndex, t.params[k].bulkOffset);
    }
  }

  lemma CompleteStays(s: State, k: nat)
    requires Shape(s) && 1 <= k < s.count
    ensures Stays(s, Complete(s, k))
  {
  }

  lemma PlaceStays(s: State, k: nat, a: Answers)
    requires Shape(s) && 1 <= k < s.count && !Assigned(s.params[k]) && !NoRoom(s, k)
    ensures Stays(s, Place(s, k, a))
  {
  }

  lemma WriteStays(s: State, k: nat)
    requires Shape(s) && 1 <= k < s.count && Assigned(s.params[k])
    ensures Stays(s, WriteSlot(s, k))
  {
  }

  lemma AddStays(s: State, k: nat, a: Answers)
    requires Shape(s) && 1 <= k < s.count && !NoRoom(s, k)
    ensures Stays(s, AddToBulk(s, k, a))
  {
    if Assigned(s.params[k]) {
      WriteStays(s, k);
    } else {
      var placed := Place(s, k, a);
      PlaceStays(s, k, a);
      WriteStays(placed, k);
      StaysThenStays(s, placed, WriteSlot(placed, k));
    }
  }

  lemma DeliverStays(s: State, k: nat, a: Answers)
    requires Shape(s) && 1 <= k < s.count
    ensures Stays(s, Deliver(s, k, a).0)
  {
    var p := s.params[k];
    CompleteStays(s, k);
    if p.isIOIntr && Subscribes(p) {
      var t := Subscribe(s, k, a).0;
      SubscribeStays(s, k, a);
      CompleteStays(t, k);
      StaysThenStays(s, t, Complete(t, k));
    } else if p.isIOIntr && !NoRoom(s, k) {
      var added := AddToBulk(s, k, a);
      AddStays(s, k, a);
      CompleteStays(added, k);
      StaysThenStays(s, added, Complete(added, k));
    }
  }

  lemma SetParamStays(s: State, k: nat, q: Param)
    requires Shape(s) && 1 <= k < s.count && SameSeat(s.params[k], q) && SameAddress(s.params[k], q)
    ensures PlaceShape(q) && Stays(s, SetParam(s, k, q))
  {
  }

  lemma DescribeStays(s: State, k: nat, q: Param)
    requires Shape(s) && 1 <= k < s.count && SameSeat(s.params[k], q) && SameAddress(s.params[k], q)
    ensures PlaceShape(q) && Stays(s, Describe(s, k, q))
  {
    SetParamStays(s, k, q);
  }

  lemma DescribedAddress(p: Param, look: Lookup)
    requires Described(p, look).Some?
    ensures var d := Described(p, look).value; SameAddress(p, d) && SameAddress(d, Handled(d, look).0)
  {
  }

  lemma UpdateStays(s: State, k: nat, a: Answers)
    requires Shape(s) && 1 <= k < s.count
    ensures Stays(s, UpdateParam(s, k, a).0)
  {
    var p := s.params[k];
    if p.source == FromPlc && Described(p, a.lookup).Some? {
      var d := Described(p, a.lookup).value;
      DescribedSeat(p, a.lookup);
      DescribedAddress(p, a.lookup);
      DescribeStays(s, k, d);
      RehandledStays(s, Describe(s, k, d), k, Handled(d, a.lookup).0, a);
    }
  }

  lemma RehandledStays(s: State, t: State, k: nat, h: Param, a: Answers)
    requires Shape(s) && Shape(t) && Stays(s, t) && 1 <= k < t.count
    requires SameSeat(t.params[k], h) && SameAddress(t.params[k], h)
    ensures PlaceShape(h) && Stays(s, SetParam(t, k, h)) && Stays(s, Deliver(SetParam(t, k, h), k, a).0)
  {
    SetParamStays(t, k, h);
    var u := SetParam(t, k, h);
    StaysThenStays(s, t, u);
    DeliverStays(u, k, a);
    StaysThenStays(s, u, Deliver(u, k, a).0);
  }

  lemma {:induction false} RefreshStays(s: State, port: u16, answers: nat -> Answers, k: nat)
    requires Shape(s) && 1 <= k <= s.count
    ensures Stays(s, RefreshFrom(s, port, answers, k))
    decreases s.count - k
  {
    if k < s.count {
      UpdateStays(s, k, answers(k));
      var t := if Covers(port, s.params[k].amsPort) && s.params[k].refreshNeeded
               then UpdateParam(s, k, answers(k)).0 else s;
      RefreshStays(t, port, answers, k + 1);
      StaysThenStays(s, t, RefreshFrom(t, port, answers, k + 1));
    }
  }

  lemma PollStays(s: State, i: nat, data: seq<byte>)
    requires Shape(s) && i < MAXBULK
    ensures Stays(s, Poll(s, i, data))
  {
    assert forall k :: 0 <= k < |s.params| ==> Touched(s.params[k], Poll(s, i, data).params[k]);
  }

  lemma AccessStays(s: State, k: nat, d: Direct)
    requires Shape(s) && k < |s.params|
    ensures Stays(s, Access(s, k, d))
  {
    var (t, informed) := Refetch(s, k, d.refetch);
    RefetchStays(s, k, d.refetch);
    AnsweredSeat(t.params[k], d);
    if !d.refused && informed {
      SetAnyStays(t, k, Answered(t.params[k], d));
      StaysThenStays(s, t, Access(s, k, d));
    }
  }

  lemma SetAnyStays(t: State, k: nat, q: Param)
    requires Shape(t) && k < |t.params| && SameSeat(t.params[k], q) && SameAddress(t.params[k], q)
    ensures (1 <= k < t.count ==> PlaceShape(q)) && Stays(t, SetParam(t, k, q))
  {
  }

  lemma RefetchStays(s: State, k: nat, info: Option<SymInfo>)
    requires Shape(s) && k < |s.params|
    ensures Stays(s, Refetch(s, k, info).0)
  {
  }

  lemma SubscribeStays(s: State, k: nat, a: Answers)
    requires Shape(s) && 1 <= k < s.count
    ensures Stays(s, Subscribe(s, k, a).0)
  {
  }

  lemma EnterStays(s: State, c: Creation)
    requires Shape(s)
    ensures Stays(s, Enter(s, c).0)
  {
  }

  lemma CreateStays(s: State, c: Creation)
    requires Shape(s)
    ensures Stays(s, Create(s, c))
  {
    var (t, entered) := Enter(s, c);
    EnterStays(s, c);
    if entered {
      UpdateStays(t, s.count, c.answers);
      StaysThenStays(s, t, UpdateParam(t, s.count, c.answers).0);
    }
  }

  lemma RefreshAllStays(s: State, port: u16, answers: nat -> Answers, ok: bool)
    requires Shape(s)
    ensures Stays(s, Refresh(s, port, answers, ok))
  {
    RefreshStays(s, port, answers, 1);
  }

  lemma InvalidateStays(s: State, port: u16)
    requires Shape(s)
    ensures Stays(s, Invalidate(s, port))
  {
  }

  lemma SuperviseStays(s: State, i: nat, running: bool, answers: nat -> Answers, ok: bool)
    requires Shape(s) && i < |s.ports|
    ensures Stays(s, SupervisePort(s, i, running, answers, ok))
  {
    var port := s.ports[i];
    var seen := s.(ports := s.ports[i := port.(connected := running)]);
    RefreshAllStays(seen, port.amsPort, answers, ok);
    var renewed := if running && port.refreshNeeded then Refresh(seen, port.amsPort, answers, ok) else seen;
    assert Stays(s, renewed);
    InvalidateStays(renewed, port.amsPort);
    StaysThenStays(s, renewed, Invalidate(renewed, port.amsPort));
  }

  lemma StepStays(s: State, step: Step)
    requires Shape(s)
    ensures Stays(s, Apply(s, step))
  {
    match step
    case StepCreate(c) => CreateStays(s, c);
    case StepInvalidate(port) => InvalidateStays(s, port);
    case StepRefresh(port, answers, ok) => RefreshAllStays(s, port, answers, ok);
    case StepSymbols(port, answers, ok) =>
      InvalidateStays(s, port);
      RefreshAllStays(Invalidate(s, port), port, answers, ok);
      StaysThenStays(s, Invalidate(s, port), SymbolsChanged(s, port, answers, ok));
    case StepSupervise(i, running, answers, ok) =>
      if i < |s.ports| {
        SuperviseStays(s, i, running, answers, ok);
      }
    case StepPoll(i, data) =>
      if i < MAXBULK && s.bulkOK {
        PollStays(s, i, data);
      }
    case StepAccess(k, d) =>
      if k < |s.params| {
        AccessStays(s, k, d);
      }
    case StepConnected(on) => assert Stays(s, s.(connected := on));
    case StepStart => assert Stays(s, s.(bulkOK := true));
  }

  lemma {:induction false} AssignmentsNeverMove(s: State, steps: seq<Step>)
    requires Shape(s)
    ensures Stays(s, Run(s, steps))
  {
    if steps != [] {
      var init := steps[..|steps| - 1];
      AssignmentsNeverMove(s, init);
      StepStays(Run(s, init), steps[|steps| - 1]);
      StaysThenStays(s, Run(s, init), Run(s, steps));
    }
  }

  // ----- asyn parameters that are created but not registered -----

  /** The address lookup fails after the asyn parameter was made. */
  predicate Loses(s: State, step: Step)
    requires Shape(s)
  {
    step.StepCreate? &&
    var c := step.creation;
    Prepare(s, c).1 && c.recordFound && c.drvInfo !in s.asynNames && !c.addressOk
  }

  function Losses(s: State, steps: seq<Step>): nat
    requires Shape(s)
  {
    if steps == [] then 0
    else
      var init, last := steps[..|steps| - 1], steps[|steps| - 1];
      Losses(s, init) + if Loses(Run(s, init), last) then 1 else 0
  }

  ghost predicate NoStepLoses(s: State, steps: seq<Step>)
    requires Shape(s)
  {
    forall n :: 0 <= n < |steps| ==> !Loses(Run(s, steps[..n]), steps[n])
  }

  function Gap(s: State): int {
    |s.asynNames| - s.count
  }

  lemma CreateGap(s: State, c: Creation)
    requires Shape(s)
    ensures Gap(Create(s, c)) == Gap(s) + if Loses(s, StepCreate(c)) then 1 else 0
  {
    var (t, entered) := Enter(s, c);
    if entered {
      UpdateKeepsTables(t, s.count, c.answers);
    }
  }

  lemma SuperviseGap(s: State, i: nat, running: bool, answers: nat -> Answers, ok: bool)
    requires Shape(s) && i < |s.ports|
    ensures Gap(SupervisePort(s, i, running, answers, ok)) == Gap(s)
  {
    var seen := s.(ports := s.ports[i := s.ports[i].(connected := running)]);
    RefreshKeepsPorts(seen, s.ports[i].amsPort, answers, 1);
  }

  /** Exactly the losing steps move names and count apart, and nothing brings them together again. */
  lemma StepGap(s: State, step: Step)
    requires Shape(s)
    ensures Gap(Apply(s, step)) == Gap(s) + if Loses(s, step) then 1 else 0
  {
    match step
    case StepCreate(c) => CreateGap(s, c);
    case StepRefresh(port, answers, ok) => RefreshKeepsPorts(s, port, answers, 1);
    case StepSymbols(port, answers, ok) => RefreshKeepsPorts(Invalidate(s, port), port, answers, 1);
    case StepSupervise(i, running, answers, ok) =>
      if i < |s.ports| {
        SuperviseGap(s, i, running, answers, ok);
      }
    case _ =>
  }

  lemma {:induction false} RunGap(s: State, steps: seq<Step>)
    requires Shape(s)
    ensures Gap(Run(s, steps)) == Gap(s) + Losses(s, steps)
  {
    if steps != [] {
      var init := steps[..|steps| - 1];
      RunGap(s, init);
      StepGap(Run(s, init), steps[|steps| - 1]);
    }
  }

  lemma NoStepLosesSnoc(s: State, init: seq<Step>, last: Step)
    requires Shape(s)
    ensures NoStepLoses(s, init + [last]) <==> NoStepLoses(s, init) && !Loses(Run(s, init), last)
  {
    var steps := init + [last];
    assert forall n :: 0 <= n <= |init| ==> steps[..n] == init[..n];
    assert init[..|init|] == init && steps[|init|] == last;
    if NoStepLoses(s, steps) {
      assert !Loses(Run(s, steps[..|init|]), steps[|init|]);
      forall n | 0 <= n < |init| ensures !Loses(Run(s, init[..n]), init[n]) {
        assert !Loses(Run(s, steps[..n]), steps[n]);
      }
    }
  }

  lemma {:induction false} NoLossesIff(s: State, steps: seq<Step>)
    requires Shape(s)
    ensures Losses(s, steps) == 0 <==> NoStepLoses(s, steps)
  {
    if steps != [] {
      var init, last := steps[..|steps| - 1], steps[|steps| - 1];
      assert steps == init + [last];
      NoLossesIff(s, init);
      NoStepLosesSnoc(s, init, last);
    }
  }

  /** Over a run from the start, every asyn parameter is registered exactly when
      no step of the run lost one. */
  lemma NoneLostIff(tableSize: nat, chunk: Chunk, port: u16, steps: seq<Step>)
    requires tableSize >= 1 && ChunkShape(chunk)
    ensures var s := Init(tableSize, chunk, port); NoneLost(Run(s, steps)) <==> NoStepLoses(s, steps)
  {
    var s := Init(tableSize, chunk, port);
    RunGap(s, steps);
    NoLossesIff(s, steps);
  }

  /** Step `n` registered parameter `k`. */
  ghost predicate CreatedAt(s: State, steps: seq<Step>, n: nat, k: nat)
    requires Shape(s)
  {
    n < |steps| && Run(s, steps[..n]).count == k && Run(s, steps[..n + 1]).count == k + 1
  }

  lemma RunSnoc(s: State, init: seq<Step>, last: Step)
    requires Shape(s)
    ensures Run(s, init + [last]) == Apply(Run(s, init), last)
  {
    assert (init + [last])[..|init|] == init;
  }

  lemma {:induction false} RunOn(s: State, xs: seq<Step>, ys: seq<Step>)
    requires Shape(s)
    ensures Run(s, xs + ys) == Run(Run(s, xs), ys)
    decreases |ys|
  {
    if ys == [] {
      assert xs + ys == xs;
    } else {
      var init, last := ys[..|ys| - 1], ys[|ys| - 1];
      assert ys == init + [last] && xs + ys == xs + init + [last];
      RunOn(s, xs, init);
      RunSnoc(s, xs + init, last);
      RunSnoc(Run(s, xs), init, last);
    }
  }

  lemma SuperviseKeepsCount(s: State, i: nat, running: bool, answers: nat -> Answers, ok: bool)
    requires Shape(s) && i < |s.ports|
    ensures SupervisePort(s, i, running, answers, ok).count == s.count
  {
  }

  /** Only a creation registers a parameter, and only one. */
  lemma StepCount(s: State, step: Step)
    requires Shape(s)
    ensures s.count <= Apply(s, step).count <= s.count + 1
    ensures Apply(s, step).count == s.count + 1 <==> step.StepCreate? && Enter(s, step.creation).1
  {
    match step
    case StepSupervise(i, running, answers, ok) =>
      if i < |s.ports| {
        SuperviseKeepsCount(s, i, running, answers, ok);
      }
    case _ =>
  }

  lemma CreatedLonger(s: State, init: seq<Step>, steps: seq<Step>, n: nat, k: nat)
    requires Shape(s) && init <= steps && CreatedAt(s, init, n, k)
    ensures CreatedAt(s, steps, n, k)
  {
    assert init[..n] == steps[..n] && init[..n + 1] == steps[..n + 1];
  }

  lemma {:induction false} EveryParameterCreated(s: State, steps: seq<Step>, k: nat)
    requires Shape(s) && s.count <= k < Run(s, steps).count
    ensures exists n: nat :: CreatedAt(s, steps, n, k)
    decreases |steps|
  {
    var last := |steps| - 1;
    var init := steps[..last];
    StepCount(Run(s, init), steps[last]);
    if k < Run(s, init).count {
      EveryParameterCreated(s, init, k);
      var n: nat :| CreatedAt(s, init, n, k);
      CreatedLonger(s, init, steps, n, k);
    } else {
      assert steps[..last + 1] == steps;
      assert CreatedAt(s, steps, last, k);
    }
  }

  /** The index a creation gives, one step later. */
  lemma NewIndex(s: State, step: Step)
    requires Shape(s) && Apply(s, step).count == s.count + 1
    ensures s.count < |Apply(s, step).params|
    ensures Apply(s, step).params[s.count].paramIndex == s.count + Gap(s)
  {
    StepCount(s, step);
    var t := Enter(s, step.creation).0;
    UpdateStays(t, s.count, step.creation.answers);
  }

  lemma IndexGiven(s: State, xs: seq<Step>, step: Step, k: nat)
    requires Shape(s) && Gap(s) == 0 && Run(s, xs).count == k && Run(s, xs + [step]).count == k + 1
    ensures var t := Run(s, xs + [step]); k < |t.params| && t.params[k].paramIndex == k + Losses(s, xs)
  {
    RunSnoc(s, xs, step);
    RunGap(s, xs);
    NewIndex(Run(s, xs), step);
  }

  /** A parameter's asyn index is its table position moved by the number of
      steps that lost one before it was created, for good. */
  lemma IndexShift(tableSize: nat, chunk: Chunk, port: u16, steps: seq<Step>, n: nat, k: nat)
    requires tableSize >= 1 && ChunkShape(chunk) && CreatedAt(Init(tableSize, chunk, port), steps, n, k)
    ensures var s := Init(tableSize, chunk, port); var r := Run(s, steps);
            k < |r.params| && r.params[k].paramIndex == k + Losses(s, steps[..n])
  {
    var s := Init(tableSize, chunk, port);
    var xs, ys := steps[..n], steps[n + 1..];
    AroundStep(steps, n);
    IndexGiven(s, xs, steps[n], k);
    IndexStays(s, xs + [steps[n]], ys, k);
  }

  lemma AroundStep(steps: seq<Step>, n: nat)
    requires n < |steps|
    ensures steps[..n + 1] == steps[..n] + [steps[n]] && steps[..n] + [steps[n]] + steps[n + 1..] == steps
  {
  }

  lemma IndexKept(t: State, r: State, k: nat)
    requires Stays(t, r) && k < t.count
    ensures k < |t.params| && k < |r.params| && r.params[k].paramIndex == t.params[k].paramIndex
  {
  }

  lemma IndexStays(s: State, xs: seq<Step>, ys: seq<Step>, k: nat)
    requires Shape(s) && k < Run(s, xs).count
    ensures var t, r := Run(s, xs), Run(s, xs + ys);
            k < |t.params| && k < |r.params| && r.params[k].paramIndex == t.params[k].paramIndex
  {
    RunOn(s, xs, ys);
    AssignmentsNeverMove(Run(s, xs), ys);
    IndexKept(Run(s, xs), Run(s, xs + ys), k);
  }

  lemma SlotNamesOwnerAt(tableSize: nat, chunk: Chunk, port: u16, steps: seq<Step>, n: nat, k: nat)
    requires tableSize >= 1 && ChunkShape(chunk) && CreatedAt(Init(tableSize, chunk, port), steps, n, k)
    requires var r := Run(Init(tableSize, chunk, port), steps); 1 <= k < r.count <= |r.params| && Assigned(r.params[k])
    ensures var s := Init(tableSize, chunk, port);
            var r := Run(s, steps);
            var id := r.bulk[r.params[k].bulkIndex].paramID[r.params[k].bulkOffset];
            id == k + Losses(s, steps[..n]) && (id == k <==> NoStepLoses(s, steps[..n]))
  {
    var s := Init(tableSize, chunk, port);
    var r := Run(s, steps);
    InitInv(tableSize, chunk, port);
    RunKeepsInv(s, steps);
    IndexShift(tableSize, chunk, port, steps, n, k);
    NoLossesIff(s, steps[..n]);
    assert OwnsSlot(r.params[k], r.bulk[r.params[k].bulkIndex]);
  }

  /** The slot's id is the owner's table position moved by the number of steps
      that lost a parameter before step `n`, which created the owner. */
  ghost predicate NamedFrom(s: State, steps: seq<Step>, k: nat, id: int, n: nat)
    requires Shape(s)
  {
    CreatedAt(s, steps, n, k) && id == k + Losses(s, steps[..n]) && (id == k <==> NoStepLoses(s, steps[..n]))
  }

  /** A slot names its owner exactly when no step lost a parameter before the
      owner was created; otherwise it names the position that many further on. */
  lemma SlotNamesOwnerIff(tableSize: nat, chunk: Chunk, port: u16, steps: seq<Step>, k: nat)
    requires tableSize >= 1 && ChunkShape(chunk)
    requires var r := Run(Init(tableSize, chunk, port), steps); 1 <= k < r.count <= |r.params| && Assigned(r.params[k])
    ensures var s := Init(tableSize, chunk, port);
            var r := Run(s, steps);
            exists n: nat ::
              NamedFrom(s, steps, k, r.bulk[r.params[k].bulkIndex].paramID[r.params[k].bulkOffset], n)
  {
    var s := Init(tableSize, chunk, port);
    EveryParameterCreated(s, steps, k);
    var n: nat :| CreatedAt(s, steps, n, k);
    SlotNamesOwnerAt(tableSize, chunk, port, steps, n, k);
    var r := Run(s, steps);
    assert NamedFrom(s, steps, k, r.bulk[r.params[k].bulkIndex].paramID[r.params[k].bulkOffset], n);
  }

  /** In every run in which no step loses a parameter, every slot of every chunk
      names a registered parameter, its owner: the decoder passes none over. */
  lemma NothingPassedOver(tableSize: nat, chunk: Chunk, port: u16, steps: seq<Step>, i: nat, j: nat)
    requires tableSize >= 1 && ChunkShape(chunk) && NoStepLoses(Init(tableSize, chunk, port), steps)
    requires i < MAXBULK && RESERVED <= j < Run(Init(tableSize, chunk, port), steps).bulk[i].cnt
    ensures var r := Run(Init(tableSize, chunk, port), steps); var id := r.bulk[i].paramID[j];
            1 <= id < r.count && Places(r.params[id], i, j) && r.params[id].paramIndex == id
  {
    var s := Init(tableSize, chunk, port);
    InitInv(tableSize, chunk, port);
    RunKeepsInv(s, steps);
    NoneLostIff(tableSize, chunk, port, steps);
    SlotNamesItsOwner(Run(s, steps), i, j);
  }

  // ----- what a lost parameter leads to -----

  /** A bulk parameter's creation that gets its size and handle from the dictionary. */
  function BulkCreation(drvInfo: string, port: u16, addressOk: bool): Creation {
    Creation(drvInfo, Some(Parsed(port, true, true, false, FromPlc, 0, 0, 0)), true, addressOk, true,
             Answers(DictHit(4, 7), true, None, true, None, None))
  }

  lemma LostCreation(s: State, name: string, port: u16)
    requires Shape(s) && s.count + 1 < |s.params| && DrvInfo.IsValid(name)
    requires name !in s.created && name !in s.asynNames
    ensures var r := Create(s, BulkCreation(name, port, false));
            && r.asynNames == s.asynNames + [name] && r.count == s.count && r.bulk == s.bulk
            && r.created == s.created && |r.params| == |s.params| && r.ts == s.ts
            && (forall k :: 0 <= k < s.count ==> r.params[k] == s.params[k])
  {
  }

  /** Chunk 0 is where the next parameter of the port goes. */
  predicate NextInFirst(s: State, port: u16)
    requires Shape(s)
  {
    Fits(s.bulk[0], port) && (s.bulk[0].cnt == 0 || RESERVED <= s.bulk[0].cnt)
  }

  lemma BulkCreated(s: State, name: string, port: u16)
    requires Shape(s) && s.count + 1 < |s.params| && DrvInfo.IsValid(name)
    requires name !in s.created && name !in s.asynNames && NextInFirst(s, port)
    ensures var r := Create(s, BulkCreation(name, port, true)); var c := s.bulk[0];
            var j := if c.cnt == 0 then RESERVED else c.cnt;
            && r.count == s.count + 1 && r.asynNames == s.asynNames + [name]
            && r.created == s.created[name := |s.asynNames|] && |r.params| == |s.params|
            && r.ports == AddPort(s.ports, port)
            && (forall k :: 0 <= k < s.count ==> r.params[k] == s.params[k])
            && r.params[s.count].plcSize == 4 && Places(r.params[s.count], 0, j)
            && r.bulk[0].cnt == j + 1 && r.bulk[0].amsPort == (if c.cnt == 0 then port else c.amsPort)
            && r.bulk[0].paramID == c.paramID[j := |s.asynNames|]
            && (c.cnt != 0 ==> r.bulk[0].sum[0] == c.sum[0] && r.bulk[0].sum[1] == c.sum[1])
            && r.bulk[0].sum[0].size == (if c.cnt == 0 then 4 else c.sum[0].size)
            && r.bulk[0].sum[1].size == (if c.cnt == 0 then 4 else c.sum[1].size)
  {
    assert FirstFit(s.bulk, port) == 0;
  }

  /** One address lookup that fails, and one more bulk parameter. */
  function Shifted(chunk: Chunk, port: u16): (r: State)
    requires ChunkShape(chunk)
    ensures Shape(r)
  {
    Create(Create(Init(5, chunk, port), BulkCreation("A?", port, false)), BulkCreation("B?", port, true))
  }

  /** And a second one. */
  function ShiftedTwice(chunk: Chunk, port: u16): (r: State)
    requires ChunkShape(chunk)
    ensures Shape(r)
  {
    Create(Shifted(chunk, port), BulkCreation("C?", port, true))
  }

  lemma ShiftedSlot(chunk: Chunk, port: u16)
    requires ChunkShape(chunk)
    ensures var s := Shifted(chunk, port); var c := s.bulk[0];
            && s.count == 2 && |s.params| == 5 && Places(s.params[1], 0, 2)
            && s.asynNames == ["Default access", "A?", "B?"] && s.created == map["B?" := 2]
            && c.cnt == 3 && c.amsPort == port && c.paramID[2] == 2 && c.sum[0].size == 4 && c.sum[1].size == 4
  {
    NamesValid();
    FirstLost(chunk, port);
    BulkCreated(Create(Init(5, chunk, port), BulkCreation("A?", port, false)), "B?", port);
  }

  lemma FirstLost(chunk: Chunk, port: u16)
    requires ChunkShape(chunk)
    ensures var s := Create(Init(5, chunk, port), BulkCreation("A?", port, false));
            && s.asynNames == ["Default access", "A?"] && s.created == map[] && s.count == 1 && |s.params| == 5
            && s.bulk[0].cnt == 0
  {
    NamesValid();
    LostCreation(Init(5, chunk, port), "A?", port);
  }

  lemma ShiftedSlots(chunk: Chunk, port: u16)
    requires ChunkShape(chunk)
    ensures var s := ShiftedTwice(chunk, port); var c := s.bulk[0];
            && s.count == 3 && |s.params| == 5 && c.cnt == 4 && c.paramID[2] == 2 && c.paramID[3] == 3
            && Places(s.params[1], 0, 2) && Places(s.params[2], 0, 3)
            && s.params[2].plcSize == 4 && c.sum[0].size == 4 && c.sum[1].size == 4
  {
    NamesValid();
    ShiftedSlot(chunk, port);
    BulkCreated(Shifted(chunk, port), "C?", port);
  }

  lemma NamesValid()
    ensures DrvInfo.IsValid("A?") && DrvInfo.IsValid("B?") && DrvInfo.IsValid("C?")
    ensures "A?" !in ["Default access"] && "B?" !in ["Default access", "A?"] && "C?" !in ["Default access", "A?", "B?"]
  {
    DrvInfo.ValidEndsInMark("A?");
    DrvInfo.ValidEndsInMark("B?");
    DrvInfo.ValidEndsInMark("C?");
    assert "A?"[0] == 'A' && "B?"[0] == 'B' && "C?"[0] == 'C' && "Default access"[0] == 'D';
  }

  /** With one parameter behind the lost one the decoder passes its slot over. */
  lemma LostParameterPassedOver(chunk: Chunk, port: u16, data: seq<byte>)
    requires ChunkShape(chunk)
    ensures Poll(Shifted(chunk, port), 0, data) == Shifted(chunk, port)
  {
    ShiftedSlot(chunk, port);
    var s := Shifted(chunk, port);
    var ids := s.bulk[0].paramID[..3];
    assert ids[2] == 2;
    assert Deal(s.params, s.count, ids, 2, 8, 20, data) == Deal(s.params, s.count, ids, 3, 8, 20, data);
  }

  /** With two, whatever the reply, the second's slot is passed over, and it is
      given the first's bytes instead, while the first is given nothing. */
  lemma LostParameterMisdelivers(chunk: Chunk, port: u16, data: seq<byte>)
    requires ChunkShape(chunk)
    ensures var s := ShiftedTwice(chunk, port); var r := Poll(s, 0, data);
            && r.params[1] == s.params[1]
            && r.params[2] == s.params[2].(refreshNeeded := s.params[2].refreshNeeded || WordAt(data, 8) != 0,
                                           value := SliceAt(data, 24, 4))
  {
    ShiftedSlots(chunk, port);
    var s := ShiftedTwice(chunk, port);
    var ids := s.bulk[0].paramID[..4];
    assert ids[2] == 2 && ids[3] == 3;
    var next := Share(s.params, 2, 8, 24, data);
    assert Deal(next, s.count, ids, 3, 12, 28, data) == Deal(next, s.count, ids, 4, 12, 28, data);
    assert Deal(s.params, s.count, ids, 2, 8, 24, data) == Deal(next, s.count, ids, 3, 12, 28, data);
  }
}
