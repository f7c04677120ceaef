/** The AMS Net ID of the EtherCAT master: discovered once, and the target of
    every slave-state request from then on. */
module EthercatRouting {
  import opened Bytes

  const SLAVE_STATE: u32 := 9
  const SYM_VALBYHND: u32 := 0xF005
  const IO_DEVICE_STATE: u32 := 0x5000
  const READ_DEVICE_IDS: u32 := 1
  const READ_DEVICE_COUNT: u32 := 2
  const READ_DEVICE_NET_ID: u32 := 5

  type NetId = n: seq<byte> | |n| == 6 witness [0, 0, 0, 0, 0, 0]

  /** One read's status and the bytes it returned. */
  datatype Reply = Reply(status: int, data: seq<byte>)

  /** The I/O router's side of the discovery, by index group, offset and size. */
  type IoRouter = (u32, u32, nat) -> Reply

  datatype Master = Master(netId: NetId, available: bool)

  function Derived(remote: NetId): Master {
    Master(remote[4 := 2][5 := 1], true)
  }

  predicate Complete(r: Reply, size: nat) {
    r.status == 0 && |r.data| == size
  }

  function CountReply(io: IoRouter): Reply {
    io(IO_DEVICE_STATE, READ_DEVICE_COUNT, 4)
  }

  function IdsReply(io: IoRouter): Reply {
    io(IO_DEVICE_STATE, READ_DEVICE_IDS, 4)
  }

  /** The second word of the ID table. */
  function DeviceGroup(ids: seq<byte>): (g: u32)
    requires |ids| == 4
    ensures IO_DEVICE_STATE <= g <= IO_DEVICE_STATE + 0xFFFF
  {
    IO_DEVICE_STATE + ids[2] as int + 0x100 * (ids[3] as int)
  }

  function NetIdReply(io: IoRouter, ids: seq<byte>): Reply
    requires |ids| == 4
  {
    io(DeviceGroup(ids), READ_DEVICE_NET_ID, 6)
  }

  /** The one device's reply, if the discovery gets that far: one device, its ID and a whole Net ID. */
  function OneDevice(io: IoRouter): (r: Option<NetId>) {
    var count, ids := CountReply(io), IdsReply(io);
    if Complete(count, 4) && DecodeU32(count.data) == 1 && Complete(ids, 4) && Complete(NetIdReply(io, ids.data), 6)
    then Some(NetIdReply(io, ids.data).data) else None
  }

  function Discover(remote: NetId, io: IoRouter): Master {
    var count := CountReply(io);
    if !Complete(count, 4) then Derived(remote)
    else if DecodeU32(count.data) == 0 then Master([0, 0, 0, 0, 0, 0], false)
    else match OneDevice(io)
      case None => Derived(remote)
      case Some(raw) => Master(if raw[..4] == [0, 0, 0, 0] then remote[..4] + raw[4..] else raw, true)
  }

  /** A status of zero and as many bytes as asked for. */
  predicate Whole(r: Reply, size: nat) {
    r.status == 0 && |r.data| == size
  }

  /** Unavailable exactly when the router answered that there is no device at all.
      With one device, its two-byte number in the second half of the ID table and
      a whole Net ID behind that number, it is that Net ID, with the remote's
      address in front if it has none. In every other case it is the remote's
      address followed by 2.1. */
  lemma DiscoverMeans(remote: NetId, io: IoRouter)
    ensures var m := Discover(remote, io); var count, ids := io(0x5000, 2, 4), io(0x5000, 1, 4);
            && (!m.available <==> Whole(count, 4) && count.data == [0, 0, 0, 0])
            && (!m.available ==> m.netId == [0, 0, 0, 0, 0, 0])
            && (m.available ==>
                  if Whole(count, 4) && count.data == [1, 0, 0, 0] && Whole(ids, 4)
                     && Whole(io(0x5000 + ids.data[2] as int + 0x100 * ids.data[3] as int, 5, 6), 6)
                  then var own := io(0x5000 + ids.data[2] as int + 0x100 * ids.data[3] as int, 5, 6).data;
                       m.netId == (if own[..4] == [0, 0, 0, 0] then remote[..4] else own[..4]) + own[4..]
                  else m.netId == remote[..4] + [2, 1])
  {
    var count := CountReply(io);
    if Complete(count, 4) {
      assert DecodeU32(count.data) == 0 <==> count.data == [0, 0, 0, 0];
      assert DecodeU32(count.data) == 1 <==> count.data == [1, 0, 0, 0];
    }
    if OneDevice(io).Some? {
      var raw := OneDevice(io).value;
      assert raw == raw[..4] + raw[4..];
    }
  }

  /** What of a parameter decides where its requests go. */
  datatype Param = Param(isAdrCommand: bool, absAdrValid: bool, absAdrGroup: u32, absAdrOffset: u32, handle: u32)

  predicate IsStateParam(p: Param) {
    p.isAdrCommand && p.absAdrGroup == SLAVE_STATE
  }

  datatype Request = Request(target: NetId, group: u32, offset: u32, write: bool, forState: bool)

  /** adsReadParam or adsWriteParam on a parameter; `stopped` once teardown has
      begun, `symbolReady` if a symbolic parameter has or gets its description
      and handle, `io` as the router would answer now. Or a connect, which
      resolves too. */
  datatype Op =
    | Resolve(io: IoRouter)
    | Access(p: Param, write: bool, stopped: bool, symbolReady: bool, io: IoRouter)

  datatype State = State(remote: NetId, master: NetId, resolved: bool, available: bool, sent: seq<Request>)

  /** A configured Net ID leaves nothing to resolve. */
  function Start(remote: NetId, override: Option<NetId>): State {
    match override
    case None => State(remote, [0, 0, 0, 0, 0, 0], false, false, [])
    case Some(netId) => State(remote, netId, true, true, [])
  }

  function Resolved(s: State, io: IoRouter): State {
    if s.resolved then s
    else
      var m := Discover(s.remote, io);
      s.(master := m.netId, available := m.available, resolved := true)
  }

  function Target(s: State, p: Param): NetId {
    if IsStateParam(p) then s.master else s.remote
  }

  /** The request that reaches the network, if the parameter is complete. */
  function Addressed(s: State, p: Param, write: bool, symbolReady: bool): State {
    if p.isAdrCommand && p.absAdrValid then
      s.(sent := s.sent + [Request(Target(s, p), p.absAdrGroup, p.absAdrOffset, write, IsStateParam(p))])
    else if !p.isAdrCommand && symbolReady then
      s.(sent := s.sent + [Request(Target(s, p), SYM_VALBYHND, p.handle, write, IsStateParam(p))])
    else s
  }

  function Step(s: State, op: Op): State {
    match op
    case Resolve(io) => Resolved(s, io)
    case Access(p, write, stopped, symbolReady, io) =>
      if stopped then s
      else
        var checked := if IsStateParam(p) then Resolved(s, io) else s;
        if IsStateParam(p) && !checked.available then checked
        else Addressed(checked, p, write, symbolReady)
  }

  function Run(remote: NetId, override: Option<NetId>, ops: seq<Op>): State {
    if ops == [] then Start(remote, override)
    else Step(Run(remote, override, ops[..|ops| - 1]), ops[|ops| - 1])
  }

  /** The driver's fields; requests are logged as they are sent. */
  class Router {
    const remoteNetId: NetId
    var masterNetId: NetId
    var resolved: bool
    var available: bool
    var sent: seq<Request>

    ghost function View(): State
      reads this
    {
      State(remoteNetId, masterNetId, resolved, available, sent)
    }

    constructor (remote: NetId, override: Option<NetId>)
      ensures View() == Start(remote, override)
    {
      remoteNetId, masterNetId, resolved, available, sent := remote, [0, 0, 0, 0, 0, 0], false, false, [];
      new;
      if override.Some? {
        masterNetId, available, resolved := override.value, true, true;
      }
    }

    method UseDerivedMasterId()
      modifies this
      ensures View() == old(View()).(master := Derived(remoteNetId).netId, available := true, resolved := true)
    {
      masterNetId := remoteNetId;
      masterNetId := masterNetId[4 := 2];
      masterNetId := masterNetId[5 := 1];
      available := true;
      resolved := true;
    }

    method ResolveEthercatMasterAmsNetId(io: IoRouter) returns (ok: bool)
      modifies this
      ensures View() == Resolved(old(View()), io) && ok == available
    {
      if resolved {
        return available;
      }
      var count := io(IO_DEVICE_STATE, READ_DEVICE_COUNT, 4);
      if count.status != 0 || |count.data| != 4 {
        UseDerivedMasterId();
        return true;
      }
      if DecodeU32(count.data) == 0 {
        masterNetId, available, resolved := [0, 0, 0, 0, 0, 0], false, true;
        return false;
      }
      if DecodeU32(count.data) != 1 {
        UseDerivedMasterId();
        return true;
      }
      var deviceIds := io(IO_DEVICE_STATE, READ_DEVICE_IDS, 4);
      if deviceIds.status != 0 || |deviceIds.data| != 4 {
        UseDerivedMasterId();
        return true;
      }
      var netId := io(DeviceGroup(deviceIds.data), READ_DEVICE_NET_ID, 6);
      if netId.status != 0 || |netId.data| != 6 {
        UseDerivedMasterId();
        return true;
      }
      var rawNetId := netId.data;
      if rawNetId[..4] == [0, 0, 0, 0] {
        rawNetId := remoteNetId[..4] + rawNetId[4..];
      }
      masterNetId, available, resolved := rawNetId, true, true;
      ok := true;
    }

    method CheckEthercatMasterForParam(p: Param, io: IoRouter) returns (ok: bool)
      modifies this
      ensures View() == if IsStateParam(p) then Resolved(old(View()), io) else old(View())
      ensures ok <==> !IsStateParam(p) || available
    {
      if !IsStateParam(p) {
        return true;
      }
      if !resolved {
        var found := ResolveEthercatMasterAmsNetId(io);
      }
      ok := resolved && available;
    }

    /** The common path of adsReadParam and adsWriteParam up to the request. */
    method AccessParam(p: Param, write: bool, stopped: bool, symbolReady: bool, io: IoRouter) returns (ok: bool)
      modifies this
      ensures View() == Step(old(View()), Access(p, write, stopped, symbolReady, io))
      ensures ok <==> |sent| == |old(sent)| + 1
    {
      if stopped {
        return false;
      }
      ok := CheckEthercatMasterForParam(p, io);
      if !ok {
        return false;
      }
      var target := if p.isAdrCommand && p.absAdrGroup == SLAVE_STATE then masterNetId else remoteNetId;
      var group, offset;
      if p.isAdrCommand {
        if !p.absAdrValid {
          return false;
        }
        group, offset := p.absAdrGroup, p.absAdrOffset;
      } else {
        if !symbolReady {
          return false;
        }
        group, offset := SYM_VALBYHND, p.handle;
      }
      sent := sent + [Request(target, group, offset, write, IsStateParam(p))];
    }
  }

  /** A read or write of a parameter sends at most one request: none once teardown
      has begun, for a state parameter (an address command of group 9) without a
      master, or for a parameter that is not complete; else one for its address or
      its handle, to the master if it is a state parameter and to the remote if not. */
  lemma AccessSends(s: State, p: Param, write: bool, stopped: bool, symbolReady: bool, io: IoRouter)
    ensures var t := Step(s, Access(p, write, stopped, symbolReady, io));
            var forState := p.isAdrCommand && p.absAdrGroup == 9;
            && t.remote == s.remote
            && t.sent == (if stopped || (forState && !t.available) || (if p.isAdrCommand then !p.absAdrValid else !symbolReady)
                          then s.sent
                          else s.sent + [Request(if forState then t.master else s.remote,
                                                 if p.isAdrCommand then p.absAdrGroup else 0xF005,
                                                 if p.isAdrCommand then p.absAdrOffset else p.handle, write, forState)])
            && (if forState && !stopped && !s.resolved
                then t.resolved && Master(t.master, t.available) == Discover(s.remote, io)
                else t == s.(sent := t.sent))
  {
  }

  /** A configured Net ID holds over every run, and is never given up for a discovered one. */
  lemma ConfiguredStays(remote: NetId, netId: NetId, ops: seq<Op>)
    ensures var s := Run(remote, Some(netId), ops); s.resolved && s.available && s.master == netId && s.remote == remote
  {
    ResolutionIsFinal(remote, Some(netId), ops, 0);
  }

  // ----- whole runs -----

  /** Resolving happens at most once: nothing changes the outcome afterwards. */
  ghost predicate KeepsMaster(before: State, after: State) {
    && after.remote == before.remote
    && (before.resolved ==>
          after.resolved && after.master == before.master && after.available == before.available)
  }

  lemma {:induction false} ResolutionIsFinal(remote: NetId, override: Option<NetId>, ops: seq<Op>, k: nat)
    requires k <= |ops|
    ensures KeepsMaster(Run(remote, override, ops[..k]), Run(remote, override, ops))
    decreases |ops|
  {
    if k == |ops| {
      assert ops[..k] == ops;
    } else {
      var init := ops[..|ops| - 1];
      ResolutionIsFinal(remote, override, init, k);
      assert init[..k] == ops[..k];
    }
  }

  /** The step that resolves, and what the router answers in it. */
  predicate Resolves(op: Op) {
    op.Resolve? || (!op.stopped && IsStateParam(op.p))
  }

  /** Without a configured Net ID, what the first resolving step finds is what
      holds for good, a failure to read included. */
  lemma {:induction false} FirstAnswerDecides(remote: NetId, ops: seq<Op>, k: nat)
    requires k < |ops| && Resolves(ops[k]) && forall i :: 0 <= i < k ==> !Resolves(ops[i])
    ensures var s := Run(remote, None, ops);
            s.resolved && Master(s.master, s.available) == Discover(remote, ops[k].io)
    decreases |ops|
  {
    var init := ops[..|ops| - 1];
    ResolutionIsFinal(remote, None, ops, 0);
    ResolutionIsFinal(remote, None, init, 0);
    if k < |init| {
      FirstAnswerDecides(remote, init, k);
    } else {
      UnresolvedSoFar(remote, init);
    }
  }

  lemma {:induction false} UnresolvedSoFar(remote: NetId, ops: seq<Op>)
    requires forall i :: 0 <= i < |ops| ==> !Resolves(ops[i])
    ensures !Run(remote, None, ops).resolved && Run(remote, None, ops).remote == remote
  {
    if ops != [] {
      UnresolvedSoFar(remote, ops[..|ops| - 1]);
    }
  }

  /** A slave-state request goes to the master, and only once there is one; every other goes to the remote. */
  predicate WellRouted(s: State, r: Request) {
    if r.forState then s.resolved && s.available && r.target == s.master && r.group == SLAVE_STATE
    else r.target == s.remote
  }

  ghost predicate AllRouted(s: State) {
    forall i :: 0 <= i < |s.sent| ==> WellRouted(s, s.sent[i])
  }

  lemma StepRoutes(s: State, op: Op)
    requires AllRouted(s)
    ensures AllRouted(Step(s, op))
  {
    var s' := Step(s, op);
    forall i | 0 <= i < |s'.sent| ensures WellRouted(s', s'.sent[i]) {
      if i < |s.sent| {
        assert s'.sent[i] == s.sent[i] && WellRouted(s, s.sent[i]);
      }
    }
  }

  /** In every run all slave-state requests go to one Net ID, the one the run
      ends with, whenever they were sent, and all others to the remote. */
  lemma {:induction false} OneMasterPerRun(remote: NetId, override: Option<NetId>, ops: seq<Op>)
    ensures AllRouted(Run(remote, override, ops))
  {
    if ops != [] {
      OneMasterPerRun(remote, override, ops[..|ops| - 1]);
      StepRoutes(Run(remote, override, ops[..|ops| - 1]), ops[|ops| - 1]);
    }
  }

  /** Once the router has said that there are no devices no slave-state request
      is ever sent, before or after. */
  lemma NoDevicesNoRequests(remote: NetId, ops: seq<Op>, k: nat, i: nat)
    requires k < |ops| && Resolves(ops[k]) && forall j :: 0 <= j < k ==> !Resolves(ops[j])
    requires ops[k].io(0x5000, 2, 4) == Reply(0, [0, 0, 0, 0])
    requires i < |Run(remote, None, ops).sent|
    ensures !Run(remote, None, ops).sent[i].forState
  {
    FirstAnswerDecides(remote, ops, k);
    DiscoverMeans(remote, ops[k].io);
    OneMasterPerRun(remote, None, ops);
    assert WellRouted(Run(remote, None, ops), Run(remote, None, ops).sent[i]);
  }
}
