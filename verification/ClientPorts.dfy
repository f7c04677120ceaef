/** ADS client ports, one per thread, shared by the nested guards of a thread. */
module ClientPorts {
  import opened Bytes

  type Thread = nat
  /** The thread id the driver's own connection is kept under. */
  const DEFAULT: Thread := 0

  datatype Entry = Entry(port: int, liveCount: int)

  predicate IsInvalidPortNumber(port: int) {
    port <= 0 || port > 0xFFFF
  }

  // ----- the two operations on the map -----

  datatype Added = Added(entries: map<Thread, Entry>, port: int)

  /** `newPort` is what opening a port gives, if one is opened. */
  function Add(entries: map<Thread, Entry>, t: Thread, newPort: int): Added {
    if t in entries then
      Added(entries[t := entries[t].(liveCount := entries[t].liveCount + 1)], entries[t].port)
    else if IsInvalidPortNumber(newPort) then Added(entries, 0)
    else Added(entries[t := Entry(newPort, 1)], newPort)
  }

  /** What is left, and the port that was to be closed, if any. */
  datatype Deleted = Deleted(entries: map<Thread, Entry>, toClose: Option<int>)

  function Del(entries: map<Thread, Entry>, t: Thread, closes: bool): Deleted {
    if t !in entries then Deleted(entries, None)
    else
      var e := entries[t].(liveCount := entries[t].liveCount - 1);
      if e.liveCount > 0 then Deleted(entries[t := e], None)
      else if !closes then Deleted(entries[t := e], Some(e.port))
      else Deleted(entries - {t}, Some(e.port))
  }

  class ClientPortMap {
    var entries: map<Thread, Entry>

    constructor ()
      ensures entries == map[]
    {
      entries := map[];
    }

    /** addAdsClientPortNumberForThreadId. */
    method AddAdsClientPortNumberForThreadId(threadId: Thread, newPort: int) returns (port: int)
      modifies this
      ensures Added(entries, port) == Add(old(entries), threadId, newPort)
    {
      if threadId in entries {
        var it := entries[threadId];
        entries := entries[threadId := it.(liveCount := it.liveCount + 1)];
        return it.port;
      }
      if IsInvalidPortNumber(newPort) {
        return 0;
      }
      entries := entries[threadId := Entry(newPort, 1)];
      return newPort;
    }

    /** delAdsClientPortNumberForThreadId; fails when the port does not close. */
    method DelAdsClientPortNumberForThreadId(threadId: Thread, closes: bool) returns (ok: bool, ghost toClose: Option<int>)
      modifies this
      ensures Deleted(entries, toClose) == Del(old(entries), threadId, closes)
      ensures ok <==> toClose.None? || closes
    {
      toClose := None;
      if threadId in entries {
        var it := entries[threadId];
        it := it.(liveCount := it.liveCount - 1);
        entries := entries[threadId := it];
        if it.liveCount > 0 {
          return true, None;
        }
        toClose := Some(it.port);
        if !closes {
          return false, toClose;
        }
        entries := entries - {threadId};
        assert entries == old(entries) - {threadId};
      }
      ok := true;
    }

    /** getAdsClientPortNumberForThreadId; nothing where the lookup throws. */
    method GetAdsClientPortNumberForThreadId(threadId: Thread) returns (port: Option<int>)
      ensures port == Get(entries, threadId)
    {
      if threadId in entries {
        return if DEFAULT in entries then Some(entries[DEFAULT].port) else None;
      }
      return None;
    }
  }

  /** A thread that has an entry gets the default port, one that has none gets nothing. */
  function Get(entries: map<Thread, Entry>, t: Thread): Option<int> {
    if t in entries && DEFAULT in entries then Some(entries[DEFAULT].port) else None
  }

  /** What the comments beside it say: its own port, or the default for a thread without one. */
  function Promised(entries: map<Thread, Entry>, t: Thread): Option<int> {
    if t in entries then Some(entries[t].port)
    else if DEFAULT in entries then Some(entries[DEFAULT].port) else None
  }

  // ----- runs of many threads -----

  /** The map, the ports that are open, and each thread's live guards with the
      port each was given (0 where opening failed), innermost last. */
  datatype State = State(entries: map<Thread, Entry>, open: set<int>, guards: map<Thread, seq<int>>)

  /** The driver connecting, a guard coming to life, the innermost guard of a thread dying. */
  datatype Op = Connect(newPort: int) | Construct(t: Thread, newPort: int) | Destroy(t: Thread, closes: bool)

  function Stack(s: State, t: Thread): seq<int> {
    if t in s.guards then s.guards[t] else []
  }

  function OpenAfter(s: State, t: Thread, newPort: int): set<int> {
    if t in s.entries || IsInvalidPortNumber(newPort) then s.open else s.open + {newPort}
  }

  function CloseAfter(s: State, toClose: Option<int>, closes: bool): set<int> {
    if toClose.Some? && closes then s.open - {toClose.value} else s.open
  }

  function Step(s: State, op: Op): State {
    match op
    case Connect(newPort) =>
      State(Add(s.entries, DEFAULT, newPort).entries, OpenAfter(s, DEFAULT, newPort), s.guards)
    case Construct(t, newPort) =>
      var added := Add(s.entries, t, newPort);
      State(added.entries, OpenAfter(s, t, newPort), s.guards[t := Stack(s, t) + [added.port]])
    case Destroy(t, closes) =>
      var deleted := Del(s.entries, t, closes);
      var stack := Stack(s, t);
      State(deleted.entries, CloseAfter(s, deleted.toClose, closes),
            s.guards[t := if stack == [] then [] else stack[..|stack| - 1]])
  }

  /** What is assumed of a run: closing never fails, opening never fails, or just
      that closing does not fail where a guard without a port dies. */
  datatype Library = ClosesSucceed | OpensSucceed | NoStrayDeath

  /** Threads other than the default's have guards, only live guards die, and a
      port that is open is not opened again. */
  predicate Legal(lib: Library, s: State, op: Op) {
    match op
    case Connect(newPort) => Openable(lib, s, newPort)
    case Construct(t, newPort) => t != DEFAULT && Openable(lib, s, newPort)
    case Destroy(t, closes) =>
      t != DEFAULT && Stack(s, t) != [] && (lib.ClosesSucceed? ==> closes)
      && (lib.NoStrayDeath? ==> closes || !Stray(EntryOf(s, t), Stack(s, t)))
  }

  /** The innermost guard was given no port, yet there is an entry that its death will be counted in. */
  predicate Stray(entry: Option<Entry>, stack: seq<int>)
    requires stack != []
  {
    entry.Some? && stack[|stack| - 1] == 0
  }

  predicate Openable(lib: Library, s: State, newPort: int) {
    newPort !in s.open && (lib.OpensSucceed? ==> !IsInvalidPortNumber(newPort))
  }

  const INITIAL := State(map[], {}, map[])

  function Run(ops: seq<Op>): State {
    if ops == [] then INITIAL else Step(Run(ops[..|ops| - 1]), ops[|ops| - 1])
  }

  ghost predicate LegalRun(lib: Library, ops: seq<Op>) {
    forall i :: 0 <= i < |ops| ==> Legal(lib, Run(ops[..i]), ops[i])
  }

  /** How many of these guards were given a port. */
  function Live(stack: seq<int>): (n: nat)
    ensures n > 0 <==> exists i :: 0 <= i < |stack| && stack[i] != 0
  {
    if stack == [] then 0 else Live(stack[..|stack| - 1]) + if stack[|stack| - 1] != 0 then 1 else 0
  }

  // ----- what every step keeps -----

  function EntryOf(s: State, t: Thread): Option<Entry> {
    if t in s.entries then Some(s.entries[t]) else None
  }

  /** An entry counts the thread's guards that were given a port, all of them
      that port; they lie above those that were given none. */
  ghost predicate StackOk(lib: Library, entry: Option<Entry>, stack: seq<int>) {
    && (Live(stack) > 0 ==> entry.Some?)
    && (entry.Some? ==> entry.value.liveCount == Live(stack))
    && (entry.Some? ==> forall i :: 0 <= i < |stack| ==> stack[i] == 0 || stack[i] == entry.value.port)
    && (forall i, j :: 0 <= i < j < |stack| && stack[j] == 0 ==> stack[i] == 0)
    && (lib.ClosesSucceed? && entry.Some? ==> Live(stack) > 0)
    && (lib.OpensSucceed? ==> forall i :: 0 <= i < |stack| ==> stack[i] != 0)
  }

  ghost predicate ThreadOk(lib: Library, s: State, t: Thread) {
    StackOk(lib, EntryOf(s, t), Stack(s, t))
  }

  ghost predicate PortsOk(s: State) {
    && (forall t :: t in s.entries ==> s.entries[t].port in s.open && !IsInvalidPortNumber(s.entries[t].port))
    && (forall t, u :: t in s.entries && u in s.entries && t != u ==> s.entries[t].port != s.entries[u].port)
    && (forall p :: p in s.open ==> exists t :: t in s.entries && s.entries[t].port == p)
  }

  ghost predicate Inv(lib: Library, s: State) {
    && PortsOk(s) && DEFAULT !in s.guards
    && forall t :: t != DEFAULT ==> ThreadOk(lib, s, t)
  }

  lemma LiveAppend(stack: seq<int>, port: int)
    ensures Live(stack + [port]) == Live(stack) + if port != 0 then 1 else 0
  {
    assert (stack + [port])[..|stack|] == stack;
  }

  lemma AddKeepsPorts(s: State, t: Thread, newPort: int)
    requires PortsOk(s) && newPort !in s.open
    ensures PortsOk(State(Add(s.entries, t, newPort).entries, OpenAfter(s, t, newPort), s.guards))
  {
    var s' := State(Add(s.entries, t, newPort).entries, OpenAfter(s, t, newPort), s.guards);
    forall p | p in s'.open ensures exists u :: u in s'.entries && s'.entries[u].port == p {
      if p in s.open {
        var u :| u in s.entries && s.entries[u].port == p;
        assert s'.entries[u].port == p;
      } else {
        assert s'.entries[t].port == p;
      }
    }
  }

  lemma DelKeepsPorts(s: State, t: Thread, closes: bool)
    requires PortsOk(s)
    ensures var d := Del(s.entries, t, closes); PortsOk(State(d.entries, CloseAfter(s, d.toClose, closes), s.guards))
  {
    var d := Del(s.entries, t, closes);
    var s' := State(d.entries, CloseAfter(s, d.toClose, closes), s.guards);
    forall p | p in s'.open ensures exists u :: u in s'.entries && s'.entries[u].port == p {
      var u :| u in s.entries && s.entries[u].port == p;
      assert s'.entries[u].port == p;
    }
  }

  lemma ShareKeeps(lib: Library, e: Entry, stack: seq<int>)
    requires StackOk(lib, Some(e), stack) && e.port != 0
    ensures StackOk(lib, Some(e.(liveCount := e.liveCount + 1)), stack + [e.port])
  {
    LiveAppend(stack, e.port);
  }

  lemma FailedOpenKeeps(lib: Library, stack: seq<int>)
    requires StackOk(lib, None, stack) && !lib.OpensSucceed?
    ensures StackOk(lib, None, stack + [0])
  {
    LiveAppend(stack, 0);
  }

  lemma OpenKeeps(lib: Library, stack: seq<int>, port: int)
    requires StackOk(lib, None, stack) && port != 0
    ensures StackOk(lib, Some(Entry(port, 1)), stack + [port])
  {
    LiveAppend(stack, port);
  }

  lemma ConstructKeepsThread(lib: Library, s: State, t: Thread, newPort: int)
    requires ThreadOk(lib, s, t) && Openable(lib, s, newPort)
    requires t in s.entries ==> !IsInvalidPortNumber(s.entries[t].port)
    ensures ThreadOk(lib, Step(s, Construct(t, newPort)), t)
  {
    if t in s.entries {
      ShareKeeps(lib, s.entries[t], Stack(s, t));
    } else if IsInvalidPortNumber(newPort) {
      FailedOpenKeeps(lib, Stack(s, t));
    } else {
      OpenKeeps(lib, Stack(s, t), newPort);
    }
  }

  /** What the death of the innermost guard leaves of an entry. */
  function LeftOf(entry: Option<Entry>, closes: bool): Option<Entry> {
    match entry
    case None => None
    case Some(e) =>
      var left := e.(liveCount := e.liveCount - 1);
      if left.liveCount > 0 || !closes then Some(left) else None
  }

  lemma PopKeeps(lib: Library, entry: Option<Entry>, stack: seq<int>, closes: bool)
    requires StackOk(lib, entry, stack) && stack != []
    requires (lib.ClosesSucceed? ==> closes) && (lib.NoStrayDeath? ==> closes || !Stray(entry, stack))
    ensures StackOk(lib, LeftOf(entry, closes), stack[..|stack| - 1])
  {
    var init := stack[..|stack| - 1];
    assert Live(stack) == Live(init) + if stack[|stack| - 1] != 0 then 1 else 0;
    if stack[|stack| - 1] == 0 {
      assert Live(stack) == 0;
    }
  }

  lemma DestroyIsPop(s: State, t: Thread, closes: bool)
    requires Stack(s, t) != []
    ensures var s' := Step(s, Destroy(t, closes)); var stack := Stack(s, t);
            EntryOf(s', t) == LeftOf(EntryOf(s, t), closes) && Stack(s', t) == stack[..|stack| - 1]
  {
  }

  lemma DestroyKeepsThread(lib: Library, s: State, t: Thread, closes: bool)
    requires ThreadOk(lib, s, t) && Legal(lib, s, Destroy(t, closes))
    ensures ThreadOk(lib, Step(s, Destroy(t, closes)), t)
  {
    PopKeeps(lib, EntryOf(s, t), Stack(s, t), closes);
    DestroyIsPop(s, t, closes);
  }

  /** The count stays right exactly when the port closes, or the guard that dies
      was given one, or its thread has no entry. */
  lemma CountSurvivesIff(s: State, t: Thread, closes: bool)
    requires ThreadOk(NoStrayDeath, s, t) && Stack(s, t) != []
    ensures ThreadOk(NoStrayDeath, Step(s, Destroy(t, closes)), t) <==> closes || !Stray(EntryOf(s, t), Stack(s, t))
  {
    var stack := Stack(s, t);
    DestroyIsPop(s, t, closes);
    if closes || !Stray(EntryOf(s, t), stack) {
      PopKeeps(NoStrayDeath, EntryOf(s, t), stack, closes);
    } else {
      assert Live(stack) == Live(stack[..|stack| - 1]);
    }
  }

  lemma StepKeepsInv(lib: Library, s: State, op: Op)
    requires Inv(lib, s) && Legal(lib, s, op)
    ensures Inv(lib, Step(s, op))
  {
    var s' := Step(s, op);
    match op {
      case Connect(newPort) => AddKeepsPorts(s, DEFAULT, newPort);
      case Construct(t, newPort) => AddKeepsPorts(s, t, newPort);
      case Destroy(t, closes) => DelKeepsPorts(s, t, closes);
    }
    forall u | u != DEFAULT ensures ThreadOk(lib, s', u) {
      assert ThreadOk(lib, s, u);
      ThreadKept(lib, s, op, u);
    }
  }

  lemma OthersUntouched(s: State, op: Op, t: Thread, u: Thread)
    requires t != u && t == if op.Connect? then DEFAULT else op.t
    ensures EntryOf(Step(s, op), u) == EntryOf(s, u) && Stack(Step(s, op), u) == Stack(s, u)
  {
  }

  lemma ThreadKept(lib: Library, s: State, op: Op, u: Thread)
    requires PortsOk(s) && Legal(lib, s, op) && u != DEFAULT && ThreadOk(lib, s, u)
    ensures ThreadOk(lib, Step(s, op), u)
  {
    match op {
      case Connect(newPort) => OthersUntouched(s, op, DEFAULT, u);
      case Construct(t, newPort) =>
        if t == u { ConstructKeepsThread(lib, s, t, newPort); } else { OthersUntouched(s, op, t, u); }
      case Destroy(t, closes) =>
        if t == u { DestroyKeepsThread(lib, s, t, closes); } else { OthersUntouched(s, op, t, u); }
    }
  }

  lemma {:induction false} RunKeepsInv(lib: Library, ops: seq<Op>)
    requires LegalRun(lib, ops)
    ensures Inv(lib, Run(ops))
  {
    if ops != [] {
      var init := ops[..|ops| - 1];
      PrefixLegal(lib, ops, init);
      RunKeepsInv(lib, init);
      StepKeepsInv(lib, Run(init), ops[|ops| - 1]);
    }
  }

  // ----- results -----

  /** Over every interleaving of threads with nested guards: a guard that was
      given a port has its thread's, and the port stays open until it dies. */
  lemma GuardedPortIsOpen(lib: Library, ops: seq<Op>, t: Thread, i: nat)
    requires LegalRun(lib, ops) && t != DEFAULT && i < |Stack(Run(ops), t)| && Stack(Run(ops), t)[i] != 0
    ensures var s := Run(ops); var port := Stack(s, t)[i];
            t in s.entries && port == s.entries[t].port && port in s.open && !IsInvalidPortNumber(port)
  {
    RunKeepsInv(lib, ops);
    assert ThreadOk(lib, Run(ops), t);
    assert Live(Stack(Run(ops), t)) > 0;
  }

  /** The count is the number of the thread's guards that were given a port. */
  lemma CountIsLiveGuards(lib: Library, ops: seq<Op>, t: Thread)
    requires LegalRun(lib, ops) && t != DEFAULT && t in Run(ops).entries
    ensures Run(ops).entries[t].liveCount == Live(Stack(Run(ops), t))
  {
    RunKeepsInv(lib, ops);
    assert ThreadOk(lib, Run(ops), t);
  }

  /** No two threads share a port, and no port is open that is not in the map. */
  lemma PortsDistinctAndKept(lib: Library, ops: seq<Op>)
    requires LegalRun(lib, ops)
    ensures var s := Run(ops);
            && (forall t, u :: t in s.entries && u in s.entries && t != u ==> s.entries[t].port != s.entries[u].port)
            && (forall p :: p in s.open <==> exists t :: t in s.entries && s.entries[t].port == p)
  {
    RunKeepsInv(lib, ops);
  }

  /** Where closing never fails, a thread has an entry exactly while one of its
      live guards was given a port. */
  lemma EntryIffLiveGuard(ops: seq<Op>, t: Thread)
    requires LegalRun(ClosesSucceed, ops) && t != DEFAULT
    ensures t in Run(ops).entries <==> exists i :: 0 <= i < |Stack(Run(ops), t)| && Stack(Run(ops), t)[i] != 0
  {
    RunKeepsInv(ClosesSucceed, ops);
    assert ThreadOk(ClosesSucceed, Run(ops), t);
  }

  lemma PrefixLegal(lib: Library, ops: seq<Op>, init: seq<Op>)
    requires ops != [] && LegalRun(lib, ops) && init == ops[..|ops| - 1]
    ensures LegalRun(lib, init) && Legal(lib, Run(init), ops[|ops| - 1])
  {
    assert forall i :: 0 <= i < |init| ==> init[..i] == ops[..i];
  }

  ghost predicate DefaultKept(before: State, after: State) {
    DEFAULT in before.entries ==>
      DEFAULT in after.entries && after.entries[DEFAULT].port == before.entries[DEFAULT].port
  }

  lemma StepKeepsDefault(lib: Library, before: State, s: State, op: Op)
    requires DefaultKept(before, s) && Legal(lib, s, op)
    ensures DefaultKept(before, Step(s, op))
  {
  }

  /** The driver's own entry, once there, stays for good, and its port with it. */
  lemma {:induction false} DefaultStays(lib: Library, ops: seq<Op>, k: nat)
    requires k <= |ops| && LegalRun(lib, ops)
    ensures DefaultKept(Run(ops[..k]), Run(ops))
    decreases |ops|
  {
    if k == |ops| {
      assert ops[..k] == ops;
    } else {
      var init, last := ops[..|ops| - 1], ops[|ops| - 1];
      PrefixLegal(lib, ops, init);
      DefaultStays(lib, init, k);
      assert init[..k] == ops[..k];
      StepKeepsDefault(lib, Run(ops[..k]), Run(init), last);
    }
  }

  /** Where neither opening nor closing is sure to work the guarantee can be lost: a
      failed close leaves an entry behind whose count a guard without a port then
      takes below zero, and of the next two nested guards the inner one closes
      the port under the outer one. */
  lemma BothFailingClosesEarly()
    ensures var ops := [Construct(1, 0), Construct(1, 30000), Destroy(1, false), Destroy(1, false),
                        Construct(1, 30001), Construct(1, 30001), Destroy(1, true)];
            var s := Run(ops);
            Stack(s, 1) == [30000] && 30000 !in s.open
  {
    var o1 := [] + [Construct(1, 0)];
    var o2 := o1 + [Construct(1, 30000)];
    var o3 := o2 + [Destroy(1, false)];
    var o4 := o3 + [Destroy(1, false)];
    var o5 := o4 + [Construct(1, 30001)];
    var o6 := o5 + [Construct(1, 30001)];
    RunSnoc([], Construct(1, 0));
    RunSnoc(o1, Construct(1, 30000));
    RunSnoc(o2, Destroy(1, false));
    RunSnoc(o3, Destroy(1, false));
    RunSnoc(o4, Construct(1, 30001));
    RunSnoc(o5, Construct(1, 30001));
    RunSnoc(o6, Destroy(1, true));
    FirstHalf();
    SecondHalf();
    assert Run([]) == INITIAL;
    assert o6 + [Destroy(1, true)]
           == [Construct(1, 0), Construct(1, 30000), Destroy(1, false), Destroy(1, false),
               Construct(1, 30001), Construct(1, 30001), Destroy(1, true)];
  }

  /** A guard without a port around one with a port that does not close. */
  lemma FirstHalf()
    ensures var s := Step(Step(Step(Step(INITIAL, Construct(1, 0)), Construct(1, 30000)), Destroy(1, false)),
                          Destroy(1, false));
            s == State(map[1 := Entry(30000, -1)], {30000}, map[1 := []])
  {
    assert [] + [0] == [0] && [0] + [30000] == [0, 30000] && [0, 30000][..1] == [0];
    var s1 := Step(INITIAL, Construct(1, 0));
    assert s1 == State(map[], {}, map[1 := [0]]);
    var s2 := Step(s1, Construct(1, 30000));
    assert s2 == State(map[1 := Entry(30000, 1)], {30000}, map[1 := [0, 30000]]);
    var s3 := Step(s2, Destroy(1, false));
    assert s3 == State(map[1 := Entry(30000, 0)], {30000}, map[1 := [0]]);
  }

  /** Two nested guards on what that left. */
  lemma SecondHalf()
    ensures var s := State(map[1 := Entry(30000, -1)], {30000}, map[1 := []]);
            Step(Step(Step(s, Construct(1, 30001)), Construct(1, 30001)), Destroy(1, true))
            == State(map[], {}, map[1 := [30000]])
  {
    assert [] + [30000] == [30000] && [30000] + [30000] == [30000, 30000] && [30000, 30000][..1] == [30000];
    var s := State(map[1 := Entry(30000, -1)], {30000}, map[1 := []]);
    var s1 := Step(s, Construct(1, 30001));
    assert s1 == State(map[1 := Entry(30000, 0)], {30000}, map[1 := [30000]]);
    var s2 := Step(s1, Construct(1, 30001));
    assert s2 == State(map[1 := Entry(30000, 1)], {30000}, map[1 := [30000, 30000]]);
    assert Del(s2.entries, 1, true) == Deleted(map[], Some(30000));
  }

  lemma RunSnoc(ops: seq<Op>, op: Op)
    ensures Run(ops + [op]) == Step(Run(ops), op)
  {
    assert (ops + [op])[..|ops|] == ops;
  }

  /** The lookup keeps its promise exactly for the default thread id and where
      there is no port to give: a thread with an entry gets the default's port
      instead of its own, one without gets none instead of the default's. */
  lemma LookupAsPromisedIff(s: State, t: Thread)
    requires PortsOk(s)
    ensures Get(s.entries, t) == Promised(s.entries, t)
            <==> t == DEFAULT || (t !in s.entries && DEFAULT !in s.entries)
  {
  }
}
