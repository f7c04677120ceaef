/** The end of a supervision round: how often no port was found running, what is
    done about it, and whether the driver counts as connected. */
module Supervision {
  /** What a round finds: for each port, whether its state was read and is running. */
  type Round = seq<bool>

  predicate AllDown(round: Round) {
    forall i :: 0 <= i < |round| ==> !round[i]
  }

  /** A round of the thread; or a connect made elsewhere, by asyn or by the
      creation of a parameter, and whether it worked. */
  datatype Op = Poll(round: Round) | Connect(ok: bool)

  datatype State = State(notConnected: nat, connected: bool, exited: bool, reconnects: nat)

  function After(s: State, op: Op, autoConnect: bool): State {
    if s.exited then s
    else match op
      case Connect(ok) => s.(connected := s.connected || ok)
      case Poll(round) =>
        var counter := if AllDown(round) then s.notConnected + 1 else 0;
        if counter > 1 then s.(notConnected := counter, exited := true)
        else if !AllDown(round) || !autoConnect then s.(notConnected := counter)
        else
          var reconnects := counter / 2 % 2 == 1;
          s.(notConnected := counter, connected := false, reconnects := s.reconnects + if reconnects then 1 else 0)
  }

  function Run(ops: seq<Op>, autoConnect: bool): State {
    if ops == [] then State(0, false, false, 0)
    else After(Run(ops[..|ops| - 1], autoConnect), ops[|ops| - 1], autoConnect)
  }

  class Supervisor {
    const autoConnect: bool
    var notConnected: nat
    var connected: bool
    var exited: bool
    var reconnects: nat

    ghost function View(): State
      reads this
    {
      State(notConnected, connected, exited, reconnects)
    }

    constructor (autoConnect: bool)
      ensures View() == Run([], autoConnect) && this.autoConnect == autoConnect
    {
      this.autoConnect := autoConnect;
      notConnected, connected, exited, reconnects := 0, false, false, 0;
    }

    /** One round of the thread, unless the process is gone. */
    method DoRound(round: Round)
      requires !exited
      modifies this
      ensures View() == After(old(View()), Poll(round), autoConnect)
    {
      var oneConnectionOk := false;
      for i := 0 to |round|
        invariant oneConnectionOk <==> exists j :: 0 <= j < i && round[j]
        invariant View() == old(View())
      {
        oneConnectionOk := oneConnectionOk || round[i];
      }
      if !oneConnectionOk {
        notConnected := notConnected + 1;
      }
      if oneConnectionOk {
        notConnected := 0;
      }
      if notConnected > 1 {
        exited := true;
        return;
      }
      if !oneConnectionOk && autoConnect {
        connected := false;
        if notConnected / 2 % 2 == 1 {
          reconnects := reconnects + 1;
        }
      }
    }

    method DoConnect(ok: bool)
      requires !exited
      modifies this
      ensures View() == After(old(View()), Connect(ok), autoConnect)
    {
      if ok {
        connected := true;
      }
    }
  }

  /** Rounds `m` and `n` find everything down, and every op between them is no round. */
  ghost predicate TwoDown(ops: seq<Op>, m: nat, n: nat) {
    && m < n < |ops| && ops[m].Poll? && ops[n].Poll? && AllDown(ops[m].round) && AllDown(ops[n].round)
    && forall i :: m < i < n ==> ops[i].Connect?
  }

  /** The last round of the run found everything down. */
  ghost predicate LastDown(ops: seq<Op>, m: nat) {
    && m < |ops| && ops[m].Poll? && AllDown(ops[m].round)
    && forall i :: m < i < |ops| ==> ops[i].Connect?
  }

  /** How far a run is from its end. */
  ghost predicate Counted(ops: seq<Op>, s: State) {
    && (s.exited <==> exists m: nat, n: nat :: TwoDown(ops, m, n))
    && s.reconnects == 0
    && (!s.exited ==> s.notConnected <= 1 && (s.notConnected == 1 <==> exists m: nat :: LastDown(ops, m)))
  }

  lemma TwoDownGrows(init: seq<Op>, last: Op)
    ensures var ops := init + [last];
            (exists m: nat, n: nat :: TwoDown(ops, m, n))
            <==> (exists m: nat, n: nat :: TwoDown(init, m, n))
                 || (last.Poll? && AllDown(last.round) && exists m: nat :: LastDown(init, m))
  {
    var ops := init + [last];
    assert forall i :: 0 <= i < |init| ==> init[i] == ops[i];
    if m: nat, n: nat :| TwoDown(init, m, n) {
      assert TwoDown(ops, m, n);
    }
    if m: nat :| LastDown(init, m) && last.Poll? && AllDown(last.round) {
      assert TwoDown(ops, m, |init|);
    }
    if m: nat, n: nat :| TwoDown(ops, m, n) {
      if n < |init| {
        assert TwoDown(init, m, n);
      } else {
        assert LastDown(init, m);
      }
    }
  }

  lemma LastDownGrows(init: seq<Op>, last: Op)
    ensures (exists m: nat :: LastDown(init + [last], m))
            <==> if last.Poll? then AllDown(last.round) else exists m: nat :: LastDown(init, m)
  {
    var ops := init + [last];
    assert forall i :: 0 <= i < |init| ==> init[i] == ops[i];
    if last.Poll? && AllDown(last.round) {
      assert LastDown(ops, |init|);
    }
    if m: nat :| LastDown(init, m) && last.Connect? {
      assert LastDown(ops, m);
    }
    if m: nat :| LastDown(ops, m) && m < |init| {
      assert ops[|init|].Connect? && LastDown(init, m);
    }
  }

  /** The process ends exactly when two rounds in a row find every port down,
      and no run ever gets to the branch that reconnects. */
  lemma {:induction false} ExitsIffTwoDown(ops: seq<Op>, autoConnect: bool)
    ensures Counted(ops, Run(ops, autoConnect))
  {
    if ops != [] {
      var init, last := ops[..|ops| - 1], ops[|ops| - 1];
      assert ops == init + [last];
      ExitsIffTwoDown(init, autoConnect);
      TwoDownGrows(init, last);
      LastDownGrows(init, last);
    }
  }

  /** A connect that worked, with no all-down round after it. */
  ghost predicate ConnectedSince(ops: seq<Op>, n: nat) {
    n < |ops| && ops[n] == Connect(true) && forall i :: n < i < |ops| && ops[i].Poll? ==> !AllDown(ops[i].round)
  }

  /** With automatic connection, a driver that has not ended counts as connected
      exactly when a connect made elsewhere has worked since the last all-down
      round: its own rounds never connect again. */
  lemma {:induction false} ConnectedIff(ops: seq<Op>)
    ensures var s := Run(ops, true);
            !s.exited ==> (s.connected <==> exists n: nat :: ConnectedSince(ops, n))
  {
    if ops != [] {
      var init, last := ops[..|ops| - 1], ops[|ops| - 1];
      assert ops == init + [last];
      ConnectedIff(init);
      ConnectedGrows(init, last);
    }
  }

  lemma ConnectedGrows(init: seq<Op>, last: Op)
    ensures (exists n: nat :: ConnectedSince(init + [last], n))
            <==> last == Connect(true)
                 || ((last.Poll? ==> !AllDown(last.round)) && exists n: nat :: ConnectedSince(init, n))
  {
    var ops := init + [last];
    assert forall i :: 0 <= i < |init| ==> init[i] == ops[i];
    if last == Connect(true) {
      assert ConnectedSince(ops, |init|);
    }
    if n: nat :| ConnectedSince(init, n) && (last.Poll? ==> !AllDown(last.round)) {
      assert ConnectedSince(ops, n);
    }
    if n: nat :| ConnectedSince(ops, n) && n < |init| {
      assert ops[|init|] == last && ConnectedSince(init, n);
    }
  }

  /** Without automatic connection no round disconnects: the driver counts as
      connected from the first connect that worked. */
  lemma {:induction false} ManualStaysConnected(ops: seq<Op>)
    ensures var s := Run(ops, false);
            !s.exited ==> (s.connected <==> exists n :: 0 <= n < |ops| && ops[n] == Connect(true))
  {
    if ops != [] {
      var init, last := ops[..|ops| - 1], ops[|ops| - 1];
      ManualStaysConnected(init);
      if n :| 0 <= n < |init| && init[n] == Connect(true) {
        assert ops[n] == Connect(true);
      }
      if n :| 0 <= n < |ops| && ops[n] == Connect(true) && n != |init| {
        assert init[n] == Connect(true);
      }
    }
  }
}
