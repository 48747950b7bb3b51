/** Whether a connection can still be closed: which steps strand it, and that otherwise the
    disconnect that is posted again and again gets through once everything in flight is done. */
module StarNetClosing {
  import opened StarNet
  import opened StarNetPools

  /** Nobody will ever close c: its accept failed; or the flag is down and no disconnect is queued;
      or the program was never told of it and no worker is about to go on with it. */
  predicate Stranded(s: Net, c: ConnId)
    requires c in s.conns
  {
    var k := s.conns[c];
    || k.stage.Abandoned?
    || ((k.stage.Live? || k.stage.Mute?) && k.connected == 0 && k.disc == 0)
    || (k.stage.Mute? && k.connected == 1 && c !in s.starting)
  }

  /** AsyncDisconnect takes the flag down and the request fails. */
  predicate FlagWasted(k: Conn, d: Outcome) {
    k.connected == 1 && d.Failure?
  }

  /** The step calls AsyncDisconnect on its connection, for itself or because something failed. */
  predicate Disconnects(k: Conn, a: Step) {
    match a
    case FirstRecv(_, _, o, _) => o.Failure?
    case TurnAway(_, _) => true
    case EndOfData(_, _, _) => true
    case Data(_, _, o, _) => o.Failure?
    case Disconnect(_, _) => true
    case Send(_, _, len, o, _) =>
      PEER_PACKET_HEAD + len <= MAX_OUTPUT_BUFFER && (k.iorefs > k.iorefmax || o.Failure?)
    case _ => false
  }

  /** The steps that strand c: a failed accept, a connect without its option, and every disconnect
      that takes the flag down and then fails. */
  predicate Strands(s: Net, a: Step, c: ConnId)
    requires c in s.conns
  {
    if a.OpenFailed? then a.c == c && (a.how.AcceptFailed? || (a.how.ConnectOption? && c !in s.starting))
    else Disconnects(s.conns[c], a) && a.c == c && FlagWasted(s.conns[c], a.d)
  }

  /** Steps that post, complete or end operations: the stage stays, and flag and queue change only
      by AsyncDisconnect. */
  predicate Operates(a: Step) {
    a.FirstRecv? || a.TurnAway? || a.TakeRecv? || a.EndOfData? || a.Data? || a.SendDone? || a.Disconnect? || a.Send?
  }

  lemma Operated(s: Net, a: Step)
    requires Enabled(s, a) && Operates(a)
    ensures var k := s.conns[a.c];
            && a.c in Apply(s, a).conns
            && var k' := Apply(s, a).conns[a.c];
               && k'.stage == k.stage
               && (k'.connected, k'.disc) ==
                    if Disconnects(k, a) && k.connected == 1 then (0, if a.d.Failure? then k.disc else k.disc + 1)
                    else (k.connected, k.disc)
    ensures a.c in Apply(s, a).starting ==> a.c in s.starting
    ensures !a.FirstRecv? && !a.TurnAway? ==> Apply(s, a).starting == s.starting
  {
    hide Pop, Push;
  }

  /** A connection with something in flight is up; a mute one has nothing in flight. */
  lemma OperatedStage(s: Net, a: Step)
    requires Inv(s) && Enabled(s, a) && Operates(a) && !a.FirstRecv? && !a.TurnAway?
    ensures s.conns[a.c].stage.Live?
  {
    hide OutState, Accounts, Owned, InputHome, InFlightOut, InFlightIn, Flying, Pop, Push, Apply;
    var k := s.conns[a.c];
    ConnAt(s, a.c);
    if k.iorefs == 0 { NoRefs(k); }
  }

  /** A stranded connection stays so, and a step strands another one exactly if it is one of those. */
  lemma StrandedIff(s: Net, a: Step, c: ConnId)
    requires Inv(s) && Enabled(s, a) && Timely(s, a) && c in s.conns
    ensures c in Apply(s, a).conns && (Stranded(Apply(s, a), c) <==> Stranded(s, c) || Strands(s, a, c))
  {
    if !Concerns(a, c) {
      hide Inv, Enabled, Apply;
      Elsewhere(s, a, c);
    } else if Operates(a) {
      StrandedOperated(s, a);
    } else {
      StrandedOther(s, a);
    }
  }

  lemma StrandedOperated(s: Net, a: Step)
    requires Inv(s) && Enabled(s, a) && Timely(s, a) && Operates(a)
    ensures a.c in Apply(s, a).conns && (Stranded(Apply(s, a), a.c) <==> Stranded(s, a.c) || Strands(s, a, a.c))
  {
    hide OutState, Accounts, Owned, InputHome, InFlightOut, InFlightIn, Flying, Apply;
    ConnAt(s, a.c);
    Operated(s, a);
    if !a.FirstRecv? && !a.TurnAway? { OperatedStage(s, a); }
  }

  lemma StrandedOther(s: Net, a: Step)
    requires Inv(s) && Enabled(s, a) && !Operates(a) && !a.NewStream? && !a.DropStream? && a.c in s.conns
    ensures a.c in Apply(s, a).conns && (Stranded(Apply(s, a), a.c) <==> Stranded(s, a.c) || Strands(s, a, a.c))
  {
    hide OutState, Accounts, Owned, InputHome, InFlightOut, InFlightIn, Flying, AsyncRecv, AsyncSend, Pop, Push;
    ConnAt(s, a.c);
  }

  // ----- a way to the end

  /** Steps from any state, all of them timely. */
  ghost predicate IsPath(states: seq<Net>, steps: seq<Step>) {
    && |states| == |steps| + 1
    && forall i :: 0 <= i < |steps| ==>
         Enabled(states[i], steps[i]) && Timely(states[i], steps[i]) && states[i + 1] == Apply(states[i], steps[i])
  }

  function Ahead(k: Conn): nat {
    if k.stage.Idle? then 0 else if k.disc == 1 then 1 else 2
  }

  function Left(k: Conn): nat {
    2 * |k.recvs| + |k.busy| + |k.sends|
  }

  /** The next step towards closing c. */
  lemma NextStep(s: Net, c: ConnId) returns (a: Step)
    requires Inv(s) && c in s.conns && !Stranded(s, c) && !s.conns[c].stage.Idle?
    ensures Enabled(s, a) && Timely(s, a) && !Strands(s, a, c) && c in Apply(s, a).conns
    ensures var k, k' := s.conns[c], Apply(s, a).conns[c];
            Ahead(k') < Ahead(k) || (Ahead(k') == Ahead(k) && Left(k') < Left(k))
  {
    hide OutState, Accounts, Owned, InputHome, InFlightOut, InFlightIn, Pop, Push;
    var k := s.conns[c];
    ConnAt(s, c);
    if k.stage.Opening? {
      a := OpenFailed(c, ConnectFailed);
    } else if k.disc == 1 {
      a := Drain(s, c);
    } else if k.stage.Live? {
      a := Disconnect(c, Success);
    } else {
      a := TurnAway(c, Success);
    }
  }

  /** While the disconnect is posted again, what is in flight completes, one after the other. */
  lemma Drain(s: Net, c: ConnId) returns (a: Step)
    requires Inv(s) && c in s.conns && s.conns[c].disc == 1 && (s.conns[c].stage.Live? || s.conns[c].stage.Mute?)
    ensures Enabled(s, a) && Timely(s, a) && !Strands(s, a, c) && c in Apply(s, a).conns
    ensures var k, k' := s.conns[c], Apply(s, a).conns[c];
            k'.stage.Idle? || (k'.stage == k.stage && k'.disc == 1 && Left(k') < Left(k))
  {
    hide OutState, Accounts, Owned, InputHome, InFlightOut, InFlightIn, Pop, Push, Flying, Left, AsyncRecv, AsyncSend;
    var k := s.conns[c];
    ConnAt(s, c);
    if k.recvs != {} {
      var x :| x in k.recvs;
      a := TakeRecv(c, x);
      LessLeft(k, x);
    } else if k.busy != {} {
      var x :| x in k.busy;
      a := EndOfData(c, x, Success);
      LessLeft(k, x);
      SameLeft(Apply(s, a).conns[c], k.(busy := k.busy - {x}));
    } else if k.sends != {} {
      var x :| x in k.sends;
      a := SendDone(c, x);
      LessLeft(k, x);
      SameLeft(Apply(s, a).conns[c], k.(sends := k.sends - {x}));
    } else {
      a := DisconnectDone(c);
      NoneFlying(k);
    }
  }

  lemma LessLeft(k: Conn, x: Ctx)
    requires ConnOk(k)
    ensures x in k.recvs ==> Left(k.(recvs := k.recvs - {x}, busy := k.busy + {x})) < Left(k)
    ensures x in k.busy ==> Left(k.(busy := k.busy - {x})) < Left(k)
    ensures x in k.sends ==> Left(k.(sends := k.sends - {x})) < Left(k)
  {
    hide Flying;
  }

  lemma SameLeft(k: Conn, k': Conn)
    requires k.sends == k'.sends && k.recvs == k'.recvs && k.busy == k'.busy
    ensures Left(k) == Left(k')
  {
  }

  lemma NoneFlying(k: Conn)
    requires ConnOk(k) && k.sends == {} && k.recvs == {} && k.busy == {}
    ensures k.iorefs == 0
  {
  }

  /** Every connection that is not stranded can still be closed. */
  lemma {:induction false} CanClose(s: Net, c: ConnId) returns (states: seq<Net>, steps: seq<Step>)
    requires Inv(s) && c in s.conns && !Stranded(s, c)
    ensures IsPath(states, steps) && states[0] == s
    ensures c in states[|steps|].conns && states[|steps|].conns[c].stage.Idle?
    decreases Ahead(s.conns[c]), Left(s.conns[c])
  {
    hide Inv, Enabled, Apply, Timely, Stranded, Strands, Ahead, Left;
    if s.conns[c].stage.Idle? {
      states, steps := [s], [];
    } else {
      var a := NextStep(s, c);
      StrandedIff(s, a, c);
      StepInv(s, a);
      var s1 := Apply(s, a);
      var rest, more := CanClose(s1, c);
      states, steps := [s] + rest, [a] + more;
      Prepended(s, a, rest, more);
      assert states[|steps|] == rest[|more|];
    }
  }

  lemma Prepended(s: Net, a: Step, states: seq<Net>, steps: seq<Step>)
    requires IsPath(states, steps) && Enabled(s, a) && Timely(s, a) && states[0] == Apply(s, a)
    ensures IsPath([s] + states, [a] + steps)
  {
    hide Enabled, Apply, Timely;
    var ss, aa := [s] + states, [a] + steps;
    forall i | 0 <= i < |aa|
      ensures Enabled(ss[i], aa[i]) && Timely(ss[i], aa[i]) && ss[i + 1] == Apply(ss[i], aa[i])
    {
      if i > 0 { assert ss[i] == states[i - 1] && aa[i] == steps[i - 1] && ss[i + 1] == states[i]; }
    }
  }

  /** On any path a stranded connection stays stranded. */
  lemma {:induction false} StrandedForever(states: seq<Net>, steps: seq<Step>, c: ConnId, i: nat)
    requires IsPath(states, steps) && Inv(states[0]) && c in states[0].conns && Stranded(states[0], c) && i <= |steps|
    ensures Inv(states[i]) && c in states[i].conns && Stranded(states[i], c)
    decreases i
  {
    hide Inv, Enabled, Apply, Timely, Stranded, Strands;
    if i > 0 {
      StrandedForever(states, steps, c, i - 1);
      assert Enabled(states[i - 1], steps[i - 1]) && Timely(states[i - 1], steps[i - 1]);
      StrandedIff(states[i - 1], steps[i - 1], c);
      StepInv(states[i - 1], steps[i - 1]);
    }
  }

  ghost predicate Closes(s: Net, c: ConnId, states: seq<Net>, steps: seq<Step>) {
    && IsPath(states, steps) && states[0] == s
    && c in states[|steps|].conns && states[|steps|].conns[c].stage.Idle?
  }

  /** A connection can still be closed exactly if it is not stranded. */
  lemma ClosableIff(s: Net, c: ConnId)
    requires Inv(s) && c in s.conns
    ensures (exists states, steps :: Closes(s, c, states, steps)) <==> !Stranded(s, c)
  {
    hide Inv, Enabled, Apply, Timely;
    if Stranded(s, c) {
      forall states, steps | Closes(s, c, states, steps) ensures false {
        StrandedForever(states, steps, c, |steps|);
      }
    } else {
      var states, steps := CanClose(s, c);
      assert Closes(s, c, states, steps);
    }
  }

  // ----- the three ways

  /** A disconnect that fails, after the flag was taken down. */
  lemma FailedDisconnect() returns (states: seq<Net>, steps: seq<Step>)
    ensures IsRun(states, steps) && TimelyRun(states, steps) && (forall i :: 0 <= i < |steps| ==> !steps[i].OpenFailed?)
    ensures 1 in states[|steps|].conns && states[|steps|].conns[1].stage.Live? && Stranded(states[|steps|], 1)
  {
    hide Inv;
    var prefix, done := Greeted();
    var a := Disconnect(1, Failure);
    var s := Apply(prefix[4], a);
    TimelyExtended(prefix, done, s, a);
    states, steps := prefix + [s], done + [a];
    assert forall i :: 0 <= i < 4 ==> steps[i] == done[i];
  }

  /** An accept that fails, or a connect whose option cannot be set. */
  lemma FailedOpening(how: Mishap) returns (states: seq<Net>, steps: seq<Step>)
    requires !how.ConnectFailed?
    ensures IsRun(states, steps) && TimelyRun(states, steps)
    ensures 1 in states[|steps|].conns && Stranded(states[|steps|], 1)
  {
    var a, b := Open(1, IOREFMAX, CLIENTS), OpenFailed(1, how);
    var s1 := Apply(Start(), a);
    var s2 := Apply(s1, b);
    states, steps := [Start(), s1, s2], [a, b];
  }
}
