/** What becomes of the contexts.  A stream takes its buffer from one pool; a send gives it back to
    the pool of the connection, which may be another one.  The counters then no longer tell the
    truth, and a pool that waits for its contexts waits forever. */
module StarNetPools {
  import opened Common
  import opened StarNet

  /** The pool of PeerServerSet, from which every stream of the peer protocol takes its buffer, and
      that of PeerClientSet, which its accepted connections use. */
  const SERVERS: PoolId := 0
  const CLIENTS: PoolId := 1

  function Outstanding(s: Net): set<Ctx> {
    s.held + s.lost + InFlightOut(s)
  }

  /** Contexts of other pools that are here, and contexts of p that are elsewhere. */
  function Arrived(f: Family, p: PoolId): set<Ctx> {
    In(f.at, p) - In(f.home, p)
  }

  function Gone(f: Family, p: PoolId): set<Ctx> {
    In(f.home, p) - In(f.at, p)
  }

  function Strays(f: Family): set<Ctx> {
    set x | x in f.at && TakenFrom(f, x) != HomeOf(f, x)
  }

  // ----- counting

  lemma {:induction false} ElementsSize(l: seq<Ctx>)
    requires Distinct(l)
    ensures |Elements(l)| == |l|
    decreases |l|
  {
    if l == [] {
      assert Elements(l) == {};
    } else {
      TailOf(l);
      ElementsSize(l[1..]);
    }
  }

  lemma Sizes(a: set<Ctx>, b: set<Ctx>)
    ensures |a| == |a - b| + |a * b|
  {
    assert a == (a - b) + (a * b);
  }

  /** The list of a pool and what is out of it are what is at the pool. */
  lemma PoolSizes(f: Family, out: set<Ctx>, p: PoolId)
    requires Accounts(f, out)
    ensures var q := PoolOf(f, p);
            && |q.free| + |In(f.at, p) * out| == |In(f.at, p)|
            && q.count + |Arrived(f, p)| - |Gone(f, p)| == |In(f.at, p)|
  {
    hide In, Distinct, Elements;
    PoolAt(f, out, p);
    ElementsSize(PoolOf(f, p).free);
    Sizes(In(f.at, p), out);
    Sizes(In(f.at, p), In(f.home, p));
    Sizes(In(f.home, p), In(f.at, p));
    assert In(f.at, p) * In(f.home, p) == In(f.home, p) * In(f.at, p);
  }

  lemma Parts(a: set<Ctx>, held: set<Ctx>, lost: set<Ctx>, flight: set<Ctx>)
    requires held !! lost && (held + lost) !! flight
    ensures |a * (held + lost + flight)| == |a * held| + |a * lost| + |a * flight|
  {
    assert a * (held + lost + flight) == (a * held) + (a * lost) + (a * flight);
  }

  /** In every state of every run, for each pool: its counter, corrected by what came from and went
      to other pools, is what is free, held, lost or in flight; so the condition Destroy waits for
      means that as many are outstanding as came from elsewhere without going. */
  lemma RunContexts(states: seq<Net>, steps: seq<Step>, i: nat, p: PoolId)
    requires IsRun(states, steps) && TimelyRun(states, steps) && i <= |steps|
    ensures var s := states[i];
            var f, a, q, n := s.output, In(s.output.at, p), PoolOf(s.output, p), PoolOf(s.input, p);
            && q.count + |Arrived(f, p)| - |Gone(f, p)|
               == |q.free| + |a * s.held| + |a * s.lost| + |a * InFlightOut(s)|
            && (|q.free| == q.count <==> |a * Outstanding(s)| == |Arrived(f, p)| - |Gone(f, p)|)
            && n.count == |n.free| + |In(s.input.at, p) * InFlightIn(s)|
            && (|n.free| == n.count <==> In(s.input.at, p) * InFlightIn(s) == {})
  {
    hide Enabled, Apply, Owned, ConnsOk, Accounts, InFlightOut, InFlightIn, In, PoolOf;
    RunInv(states, steps, i);
    var s := states[i];
    PoolSizes(s.output, Outstanding(s), p);
    Parts(In(s.output.at, p), s.held, s.lost, InFlightOut(s));
    PoolSizes(s.input, InFlightIn(s), p);
    HomeSame(s);
  }

  // ----- when the counters tell the truth

  /** Each counter is what is free and what is outstanding. */
  ghost predicate Exact(s: Net) {
    forall p: PoolId :: PoolOf(s.output, p).count == |PoolOf(s.output, p).free| + |In(s.output.at, p) * Outstanding(s)|
  }

  /** If a send gives a context back, then to the pool that allocated it. */
  predicate Homeward(s: Net, a: Step)
    requires Enabled(s, a)
  {
    match a
    case SendDone(c, x) => HomeOf(s.output, x) == s.conns[c].pool
    case Send(c, x, len, o, _) =>
      PEER_PACKET_HEAD + len <= MAX_OUTPUT_BUFFER && (s.conns[c].iorefs > s.conns[c].iorefmax || o.Failure?) ==>
        HomeOf(s.output, x) == s.conns[c].pool
    case _ => true
  }

  lemma PushStrays(f: Family, p: PoolId, x: Ctx)
    requires x in f.at && x in f.home
    ensures Strays(Push(f, p, x)) == if HomeOf(f, x) == p then Strays(f) - {x} else Strays(f) + {x}
  {
    hide PoolOf;
  }

  lemma PopStrays(f: Family, out: set<Ctx>, p: PoolId, spare: Ctx)
    requires Accounts(f, out) && spare !in f.home
    ensures Strays(Pop(f, p, spare).0) == Strays(f)
  {
    hide Accounts;
    PopAccounts(f, out, p, spare);
    KeysSame(f, out);
  }

  lemma KeysSame(f: Family, out: set<Ctx>)
    requires Accounts(f, out)
    ensures f.home.Keys == f.at.Keys && out <= f.at.Keys
  {
  }

  /** The context that a step pushes to an output pool, if it does so for a send. */
  predicate GivesBack(s: Net, a: Step)
    requires Enabled(s, a)
  {
    a.SendDone? || (a.Send? && PEER_PACKET_HEAD + a.len <= MAX_OUTPUT_BUFFER
                    && (s.conns[a.c].iorefs > s.conns[a.c].iorefmax || a.o.Failure?))
  }

  /** What a step does to the output pools. */
  lemma OutputAfter(s: Net, a: Step)
    requires Enabled(s, a)
    ensures Apply(s, a).output ==
              if GivesBack(s, a) then Push(s.output, s.conns[a.c].pool, a.x)
              else if a.NewStream? then Pop(s.output, a.pool, a.spare).0
              else if a.DropStream? then Push(s.output, TakenFrom(s.output, a.x), a.x)
              else s.output
  {
    hide Pop, Push, PoolOf;
  }

  lemma GivenKnown(s: Net, a: Step)
    requires Inv(s) && Enabled(s, a) && (GivesBack(s, a) || a.DropStream?)
    ensures a.x in s.output.at && a.x in s.output.home && a.x in Outstanding(s)
  {
    hide ConnsOk, Accounts, InputHome;
    if a.SendDone? { assert a.x in s.conns[a.c].sends && a.x in s.owner && s.owner[a.x] == a.c; }
    assert a.x in Outstanding(s);
    KeysSame(s.output, Outstanding(s));
  }

  /** As long as no context is astray, a step leads one astray exactly if it is not homeward. */
  lemma StrayIff(s: Net, a: Step)
    requires Inv(s) && Enabled(s, a) && Strays(s.output) == {}
    ensures Strays(Apply(s, a).output) == if Homeward(s, a) then {} else {a.x}
    ensures !Homeward(s, a) ==> a.SendDone? || a.Send?
    ensures !Homeward(s, a) ==> a.x in Apply(s, a).output.at && TakenFrom(Apply(s, a).output, a.x) == s.conns[a.c].pool
  {
    hide ConnsOk, Owned, InputHome, Accounts, Strays, Pop, InFlightOut, InFlightIn, Apply;
    OutputAfter(s, a);
    if GivesBack(s, a) {
      GivenKnown(s, a);
      PushStrays(s.output, s.conns[a.c].pool, a.x);
    } else if a.NewStream? {
      PopStrays(s.output, Outstanding(s), a.pool, a.spare);
    } else if a.DropStream? {
      GivenKnown(s, a);
      PushStrays(s.output, TakenFrom(s.output, a.x), a.x);
      NotAstray(s.output, a.x);
    }
  }

  lemma NotAstray(f: Family, x: Ctx)
    requires Strays(f) == {} && x in f.at
    ensures TakenFrom(f, x) == HomeOf(f, x)
  {
    assert x !in Strays(f);
  }

  /** Without strays the counters are exact; one stray makes that of its new pool wrong. */
  lemma ExactWithout(s: Net)
    requires Inv(s) && Strays(s.output) == {}
    ensures Exact(s)
  {
    hide ConnsOk, Owned, InputHome, Accounts, InFlightOut, InFlightIn, PoolOf, Strays, In;
    forall p: PoolId
      ensures PoolOf(s.output, p).count == |PoolOf(s.output, p).free| + |In(s.output.at, p) * Outstanding(s)|
    {
      PoolSizes(s.output, Outstanding(s), p);
      NothingMoved(s.output, Outstanding(s), p);
    }
  }

  lemma NothingMoved(f: Family, out: set<Ctx>, p: PoolId)
    requires Accounts(f, out) && Strays(f) == {}
    ensures Arrived(f, p) == {} && Gone(f, p) == {}
  {
    hide Accounts, Strays;
    KeysSame(f, out);
    forall x | x in f.at ensures TakenFrom(f, x) == HomeOf(f, x) { NotAstray(f, x); }
    assert forall x :: x in f.at.Keys <==> x in f.home.Keys;
  }

  lemma OneMoved(f: Family, out: set<Ctx>, x: Ctx)
    requires Accounts(f, out) && Strays(f) == {x} && x in f.at
    ensures var p := TakenFrom(f, x); Arrived(f, p) == {x} && Gone(f, p) == {}
  {
    hide Accounts;
    KeysSame(f, out);
    assert forall y :: y in f.at && y != x ==> y !in Strays(f);
    assert x in Strays(f);
  }

  lemma InexactAfter(s: Net, x: Ctx)
    requires Inv(s) && Strays(s.output) == {x} && x in s.output.at
    ensures !Exact(s)
  {
    hide ConnsOk, Owned, InputHome, Accounts, InFlightOut, InFlightIn, Strays, In, PoolOf;
    var p := TakenFrom(s.output, x);
    PoolSizes(s.output, Outstanding(s), p);
    OneMoved(s.output, Outstanding(s), x);
  }

  ghost predicate HomewardRun(states: seq<Net>, steps: seq<Step>)
    requires IsRun(states, steps)
  {
    forall i :: 0 <= i < |steps| ==> Enabled(states[i], steps[i]) && Homeward(states[i], steps[i])
  }

  lemma StartStrays()
    ensures Strays(Start().output) == {}
  {
  }

  lemma {:induction false} RunStrays(states: seq<Net>, steps: seq<Step>, i: nat)
    requires IsRun(states, steps) && TimelyRun(states, steps) && i <= |steps|
    requires forall j :: 0 <= j < i ==> Enabled(states[j], steps[j]) && Homeward(states[j], steps[j])
    ensures Strays(states[i].output) == {}
    decreases i
  {
    hide Inv, Enabled, Apply, Homeward, Strays, Timely;
    if i == 0 {
      StartStrays();
    } else {
      RunStrays(states, steps, i - 1);
      RunInv(states, steps, i - 1);
      assert Enabled(states[i - 1], steps[i - 1]) && Homeward(states[i - 1], steps[i - 1]);
      StrayIff(states[i - 1], steps[i - 1]);
    }
  }

  /** The counters are exact in all states of a run exactly if every context that a send gave back
      went to the pool that had allocated it. */
  lemma RunExactIff(states: seq<Net>, steps: seq<Step>)
    requires IsRun(states, steps) && TimelyRun(states, steps)
    ensures (forall i :: 0 <= i <= |steps| ==> Exact(states[i])) <==> HomewardRun(states, steps)
  {
    hide Inv, Enabled, Apply, Homeward, Strays, Timely, Exact;
    if HomewardRun(states, steps) {
      forall i | 0 <= i <= |steps| ensures Exact(states[i]) {
        RunStrays(states, steps, i);
        RunInv(states, steps, i);
        ExactWithout(states[i]);
      }
    } else {
      var i := 0;
      while Enabled(states[i], steps[i]) && Homeward(states[i], steps[i])
        invariant 0 <= i < |steps|
        invariant forall j :: 0 <= j < i ==> Enabled(states[j], steps[j]) && Homeward(states[j], steps[j])
        decreases |steps| - i
      {
        i := i + 1;
      }
      RunStrays(states, steps, i);
      RunInv(states, steps, i);
      RunInv(states, steps, i + 1);
      StrayIff(states[i], steps[i]);
      InexactAfter(states[i + 1], steps[i].x);
    }
  }

  /** In such a run the condition Destroy waits for means exactly that none is outstanding. */
  lemma HomewardWait(states: seq<Net>, steps: seq<Step>, i: nat, p: PoolId)
    requires IsRun(states, steps) && TimelyRun(states, steps) && HomewardRun(states, steps) && i <= |steps|
    ensures var s := states[i];
            |PoolOf(s.output, p).free| == PoolOf(s.output, p).count <==> In(s.output.at, p) * Outstanding(s) == {}
  {
    hide Inv, Enabled, Apply, Homeward, Timely, In, PoolOf, Outstanding;
    RunExactIff(states, steps);
    assert Exact(states[i]);
  }

  // ----- what a caller can check

  /** A stream is sent only on connections of the pool that allocated its buffer. */
  predicate Guarded(s: Net, a: Step)
    requires Enabled(s, a)
  {
    a.Send? ==> HomeOf(s.output, a.x) == s.conns[a.c].pool
  }

  ghost predicate GuardedRun(states: seq<Net>, steps: seq<Step>)
    requires IsRun(states, steps)
  {
    forall i :: 0 <= i < |steps| ==> Enabled(states[i], steps[i]) && Guarded(states[i], steps[i])
  }

  ghost predicate SendsHome(s: Net) {
    forall c, x :: c in s.conns && x in s.conns[c].sends ==> HomeOf(s.output, x) == s.conns[c].pool
  }

  lemma GuardedStep(s: Net, a: Step)
    requires Inv(s) && SendsHome(s) && Enabled(s, a) && Guarded(s, a)
    ensures Homeward(s, a) && SendsHome(Apply(s, a))
  {
    hide Accounts, InputHome, OutState, InFlightIn, Flying, Strays, Owned;
    var s' := Apply(s, a);
    forall c, x | c in s'.conns && x in s'.conns[c].sends ensures HomeOf(s'.output, x) == s'.conns[c].pool {
      SendsAfter(s, a, c, x);
      if a.NewStream? { SendKnown(s, c, x); }
      HomesKept(s, a, x);
    }
  }

  lemma CallsKeep(k: Conn, f: Family, x: Ctx, o: Outcome, d: Outcome)
    ensures AsyncDisconnect(k, d).sends == k.sends && AsyncDisconnect(k, d).pool == k.pool
    ensures AsyncRecv(k, f, x, o, d).0.sends == k.sends && AsyncRecv(k, f, x, o, d).0.pool == k.pool
    ensures AsyncSend(k, f, x, o, d).0.sends <= k.sends + {x} && AsyncSend(k, f, x, o, d).0.pool == k.pool
  {
    hide Push;
  }

  predicate Concerns(a: Step, c: ConnId) {
    !a.NewStream? && !a.DropStream? && a.c == c
  }

  /** A step changes no connection but its own. */
  lemma Elsewhere(s: Net, a: Step, c: ConnId)
    requires Enabled(s, a) && !Concerns(a, c)
    ensures c in Apply(s, a).conns <==> c in s.conns
    ensures c in s.conns ==> Apply(s, a).conns[c] == s.conns[c] && (c in Apply(s, a).starting <==> c in s.starting)
  {
    hide Enabled, Pop, Push, AsyncRecv, AsyncSend, AsyncDisconnect;
  }

  lemma SendsHere(s: Net, a: Step, x: Ctx)
    requires Enabled(s, a) && !a.NewStream? && !a.DropStream? && a.c in Apply(s, a).conns
    requires x in Apply(s, a).conns[a.c].sends
    ensures a.c in s.conns && Apply(s, a).conns[a.c].pool == s.conns[a.c].pool
    ensures x in s.conns[a.c].sends || (a.Send? && a.x == x)
  {
    hide Pop, Push, AsyncDisconnect, AsyncRecv, AsyncSend;
    match a {
      case FirstRecv(c, spare, o, d) =>
        var (f, y) := Pop(s.input, s.conns[c].pool, spare);
        CallsKeep(s.conns[c], f, y, o, d);
      case TurnAway(c, d) => CallsKeep(s.conns[c], s.input, 0, Success, d);
      case EndOfData(c, y, d) => CallsKeep(s.conns[c], s.input, y, Success, d);
      case Data(c, y, o, d) => CallsKeep(s.conns[c], s.input, y, o, d);
      case Disconnect(c, d) => CallsKeep(s.conns[c], s.input, 0, Success, d);
      case Send(c, y, _, o, d) => CallsKeep(s.conns[c], s.output, y, o, d);
      case _ =>
    }
  }

  /** A send that is in flight after a step was so before, or is the one just posted. */
  lemma SendsAfter(s: Net, a: Step, c: ConnId, x: Ctx)
    requires Enabled(s, a) && c in Apply(s, a).conns && x in Apply(s, a).conns[c].sends
    ensures c in s.conns && Apply(s, a).conns[c].pool == s.conns[c].pool
    ensures x in s.conns[c].sends || (a.Send? && a.c == c && a.x == x)
  {
    hide Apply, Enabled;
    if Concerns(a, c) { SendsHere(s, a, x); } else { Elsewhere(s, a, c); }
  }

  /** Contexts keep their home; one that is in flight or held is not allocated again. */
  lemma HomesKept(s: Net, a: Step, x: Ctx)
    requires Inv(s) && Enabled(s, a)
    requires a.NewStream? ==> x != a.spare
    ensures HomeOf(Apply(s, a).output, x) == HomeOf(s.output, x)
  {
    hide ConnsOk, Owned, InputHome, Accounts, OutState, InFlightOut, InFlightIn, Apply;
    OutputAfter(s, a);
  }

  lemma SendKnown(s: Net, c: ConnId, x: Ctx)
    requires Inv(s) && c in s.conns && x in s.conns[c].sends
    ensures x in s.output.home && x in Outstanding(s)
  {
    hide ConnsOk, Accounts, InputHome;
    assert x in s.owner && s.owner[x] == c;
    KeysSame(s.output, Outstanding(s));
  }

  lemma {:induction false} GuardedInv(states: seq<Net>, steps: seq<Step>, i: nat)
    requires IsRun(states, steps) && TimelyRun(states, steps) && GuardedRun(states, steps) && i <= |steps|
    ensures Inv(states[i]) && SendsHome(states[i])
    decreases i
  {
    hide Inv, Enabled, Apply, Timely, Guarded, Homeward;
    RunInv(states, steps, i);
    if i > 0 {
      GuardedInv(states, steps, i - 1);
      assert Enabled(states[i - 1], steps[i - 1]) && Guarded(states[i - 1], steps[i - 1]);
      GuardedStep(states[i - 1], steps[i - 1]);
    }
  }

  /** A program that checks this keeps the counters exact, whatever sockets and workers do. */
  lemma GuardedHomeward(states: seq<Net>, steps: seq<Step>)
    requires IsRun(states, steps) && TimelyRun(states, steps) && GuardedRun(states, steps)
    ensures HomewardRun(states, steps) && forall i :: 0 <= i <= |steps| ==> Exact(states[i])
  {
    hide Inv, Enabled, Apply, Timely, Guarded, Homeward, SendsHome, Exact;
    forall i | 0 <= i < |steps| ensures Enabled(states[i], steps[i]) && Homeward(states[i], steps[i]) {
      GuardedInv(states, steps, i);
      assert Enabled(states[i], steps[i]) && Guarded(states[i], steps[i]);
      GuardedStep(states[i], steps[i]);
    }
    RunExactIff(states, steps);
  }

  /** And the check is needed: a send without it leads its context astray, at once if the socket
      refuses it, else when it completes. */
  lemma UnguardedStrays(s: Net, a: Step)
    requires Inv(s) && Enabled(s, a) && a.Send? && !Guarded(s, a) && PEER_PACKET_HEAD + a.len <= MAX_OUTPUT_BUFFER
    ensures GivesBack(s, a) ==> a.x in Strays(Apply(s, a).output)
    ensures var s1, b := Apply(s, a), SendDone(a.c, a.x);
            !GivesBack(s, a) ==> Enabled(s1, b) && a.x in Strays(Apply(s1, b).output)
  {
    hide ConnsOk, Owned, InputHome, Accounts, OutState, InFlightOut, InFlightIn, Strays, Push, Pop;
    HeldKnown(s, a.x);
    OutputAfter(s, a);
    if GivesBack(s, a) {
      PushStrays(s.output, s.conns[a.c].pool, a.x);
    } else {
      var s1 := Apply(s, a);
      assert s1.conns[a.c].pool == s.conns[a.c].pool && a.x in s1.conns[a.c].sends;
      OutputAfter(s1, SendDone(a.c, a.x));
      PushStrays(s1.output, s1.conns[a.c].pool, a.x);
    }
  }

  lemma HeldKnown(s: Net, x: Ctx)
    requires Inv(s) && x in s.held
    ensures x in s.output.home && x in s.output.at
  {
    hide ConnsOk, Owned, Accounts, InputHome, InFlightOut;
    KeysSame(s.output, Outstanding(s));
  }

  // ----- the peer protocol

  /** Every stream takes its buffer from the pool of PeerServerSet. */
  ghost predicate PeerRun(steps: seq<Step>) {
    forall i :: 0 <= i < |steps| && steps[i].NewStream? ==> steps[i].pool == SERVERS
  }

  /** Then that pool allocated all output contexts, and what is out was taken from it. */
  ghost predicate PeerOk(s: Net) {
    && (forall x :: x in s.output.home ==> s.output.home[x] == SERVERS)
    && (forall x :: x in Outstanding(s) ==> TakenFrom(s.output, x) == SERVERS)
  }

  lemma PeerStep(s: Net, a: Step)
    requires Inv(s) && PeerOk(s) && Enabled(s, a) && Timely(s, a) && (a.NewStream? ==> a.pool == SERVERS)
    ensures PeerOk(Apply(s, a)) && s.lost <= Apply(s, a).lost
    ensures forall x :: x in s.output.at && TakenFrom(s.output, x) != SERVERS ==>
              x in Apply(s, a).output.at && TakenFrom(Apply(s, a).output, x) == TakenFrom(s.output, x)
  {
    hide Inv, Outstanding, Enabled, Apply;
    OutputAfter(s, a);
    StepInv(s, a);
    PeerMoves(s, a);
    forall x | x in Outstanding(Apply(s, a)) ensures TakenFrom(Apply(s, a).output, x) == SERVERS {
      PeerOut(s, a, x);
    }
    LostAfter(s, a);
  }

  lemma LostAfter(s: Net, a: Step)
    requires Enabled(s, a)
    ensures s.lost <= Apply(s, a).lost
  {
    hide AsyncRecv, AsyncSend, Pop, Push;
  }

  /** Only what was taken from SERVERS moves. */
  lemma PeerMoves(s: Net, a: Step)
    requires Inv(s) && PeerOk(s) && Enabled(s, a) && (a.NewStream? ==> a.pool == SERVERS)
    ensures forall x :: x in Apply(s, a).output.home ==> Apply(s, a).output.home[x] == SERVERS
    ensures forall x :: x in s.output.at && TakenFrom(s.output, x) != SERVERS ==>
              x in Apply(s, a).output.at && TakenFrom(Apply(s, a).output, x) == TakenFrom(s.output, x)
  {
    hide ConnsOk, Owned, InputHome, Accounts, InFlightIn, InFlightOut, Pop, Apply;
    OutputAfter(s, a);
    if a.NewStream? {
      PopAccounts(s.output, Outstanding(s), SERVERS, a.spare);
      KeysSame(s.output, Outstanding(s));
    } else if GivesBack(s, a) || a.DropStream? {
      GivenKnown(s, a);
    }
  }

  lemma PeerOut(s: Net, a: Step, x: Ctx)
    requires Inv(s) && PeerOk(s) && Enabled(s, a) && (a.NewStream? ==> a.pool == SERVERS)
    requires Inv(Apply(s, a)) && x in Outstanding(Apply(s, a))
    ensures TakenFrom(Apply(s, a).output, x) == SERVERS
  {
    hide ConnsOk, Owned, InputHome, Accounts, InFlightIn, InFlightOut, Outstanding, Pop, Apply, Inv;
    OutputAfter(s, a);
    OutBefore(s, a, x);
    if a.NewStream? {
      InvOut(s);
      PopAccounts(s.output, Outstanding(s), SERVERS, a.spare);
    } else if GivesBack(s, a) {
      GivenFree(s, a, s.conns[a.c].pool);
    } else if a.DropStream? {
      GivenFree(s, a, TakenFrom(s.output, a.x));
    }
  }

  lemma InvOut(s: Net)
    requires Inv(s)
    ensures Accounts(s.output, Outstanding(s))
  {
    hide ConnsOk, Owned, InputHome, Accounts, InFlightIn, InFlightOut;
  }

  /** What is given back is free. */
  lemma GivenFree(s: Net, a: Step, p: PoolId)
    requires Enabled(s, a) && (GivesBack(s, a) || a.DropStream?) && Inv(Apply(s, a))
    requires Apply(s, a).output == Push(s.output, p, a.x)
    ensures a.x !in Outstanding(Apply(s, a))
  {
    hide ConnsOk, Owned, InputHome, InFlightIn, InFlightOut, Outstanding, Apply, Accounts, Inv;
    var f := Apply(s, a).output;
    InvOut(Apply(s, a));
    PoolAt(f, Outstanding(Apply(s, a)), p);
    assert PoolOf(f, p).free[0] == a.x;
    assert a.x in Elements(PoolOf(f, p).free);
  }

  /** What is outstanding was so before, or was just taken. */
  lemma OutBefore(s: Net, a: Step, x: Ctx)
    requires Inv(s) && Enabled(s, a) && x in Outstanding(Apply(s, a))
    ensures x in Outstanding(s) || (a.NewStream? && x == Pop(s.output, a.pool, a.spare).1)
  {
    hide Inv, Enabled, InFlightIn;
    var s' := Apply(s, a);
    if x in InFlightOut(s') {
      var c := s'.owner[x];
      SendsAfter(s, a, c, x);
      if x in s.conns[c].sends { SendKnown(s, c, x); } else { SentHeld(s, a); }
    } else {
      HeldBefore(s, a, x);
    }
  }

  lemma SentHeld(s: Net, a: Step)
    requires Enabled(s, a) && a.Send?
    ensures a.x in s.held
  {
  }

  lemma HeldBefore(s: Net, a: Step, x: Ctx)
    requires Enabled(s, a) && (x in Apply(s, a).held || x in Apply(s, a).lost)
    ensures x in s.held || x in s.lost || (a.NewStream? && x == Pop(s.output, a.pool, a.spare).1)
  {
    hide Pop, Push, AsyncSend, AsyncRecv;
  }

  lemma StartPeer()
    ensures PeerOk(Start())
  {
    assert InFlightOut(Start()) == {};
  }

  lemma {:induction false} PeerInv(states: seq<Net>, steps: seq<Step>, i: nat)
    requires IsRun(states, steps) && TimelyRun(states, steps) && PeerRun(steps) && i <= |steps|
    ensures Inv(states[i]) && PeerOk(states[i])
    decreases i
  {
    hide Inv, Enabled, Apply, Timely, PeerOk;
    RunInv(states, steps, i);
    if i == 0 {
      StartPeer();
    } else {
      PeerInv(states, steps, i - 1);
      assert Enabled(states[i - 1], steps[i - 1]) && Timely(states[i - 1], steps[i - 1]);
      PeerStep(states[i - 1], steps[i - 1]);
    }
  }

  lemma {:induction false} PeerStays(states: seq<Net>, steps: seq<Step>, i: nat, j: nat, x: Ctx)
    requires IsRun(states, steps) && TimelyRun(states, steps) && PeerRun(steps) && i <= j <= |steps|
    ensures states[i].lost <= states[j].lost
    ensures x in states[i].output.at && TakenFrom(states[i].output, x) != SERVERS ==>
              x in states[j].output.at && TakenFrom(states[j].output, x) == TakenFrom(states[i].output, x)
    decreases j
  {
    hide Inv, Enabled, Apply, Timely, PeerOk;
    if i < j {
      PeerStays(states, steps, i, j - 1, x);
      PeerInv(states, steps, j - 1);
      assert Enabled(states[j - 1], steps[j - 1]) && Timely(states[j - 1], steps[j - 1]);
      PeerStep(states[j - 1], steps[j - 1]);
    }
  }

  /** Nothing arrives at SERVERS, so one context that is lost or elsewhere is missing there. */
  lemma MissingAtServers(s: Net, x: Ctx)
    requires Inv(s) && PeerOk(s) && (x in s.lost || (x in s.output.at && TakenFrom(s.output, x) != SERVERS))
    ensures |PoolOf(s.output, SERVERS).free| < PoolOf(s.output, SERVERS).count
  {
    hide ConnsOk, Owned, InputHome, InFlightIn, InFlightOut, Accounts, PoolOf;
    var f, out := s.output, Outstanding(s);
    InvOut(s);
    KeysSame(f, out);
    PoolSizes(f, out, SERVERS);
    assert Arrived(f, SERVERS) == {};
    if x in s.lost {
      assert x in In(f.at, SERVERS) * out;
    } else {
      assert x in Gone(f, SERVERS);
    }
  }

  /** And the pool it has come to allocated nothing, but its list is not empty. */
  lemma SurplusElsewhere(s: Net, x: Ctx)
    requires Inv(s) && PeerOk(s) && x in s.output.at && TakenFrom(s.output, x) != SERVERS
    ensures var q := PoolOf(s.output, TakenFrom(s.output, x)); |q.free| > 0 == q.count
  {
    hide ConnsOk, Owned, InputHome, InFlightIn, InFlightOut, Accounts, PoolOf;
    var f, p := s.output, TakenFrom(s.output, x);
    InvOut(s);
    KeysSame(f, Outstanding(s));
    PoolAt(f, Outstanding(s), p);
    assert In(f.home, p) == {};
    assert x in In(f.at, p) - Outstanding(s);
    assert x in Elements(PoolOf(f, p).free);
  }

  /** A packet that is too large: from then on the pool of PeerServerSet is never destroyed. */
  lemma LostForever(states: seq<Net>, steps: seq<Step>, i: nat, j: nat)
    requires IsRun(states, steps) && TimelyRun(states, steps) && PeerRun(steps) && i <= j <= |steps|
    requires states[i].lost != {}
    ensures |PoolOf(states[j].output, SERVERS).free| != PoolOf(states[j].output, SERVERS).count
  {
    hide Inv, Enabled, Apply, Timely, PeerOk, PoolOf;
    var x :| x in states[i].lost;
    PeerStays(states, steps, i, j, x);
    PeerInv(states, steps, j);
    MissingAtServers(states[j], x);
  }

  /** One send to a peer client that was given back: from then on neither that pool nor the one of
      the connection is ever destroyed. */
  lemma StrayForever(states: seq<Net>, steps: seq<Step>, i: nat, j: nat, x: Ctx)
    requires IsRun(states, steps) && TimelyRun(states, steps) && PeerRun(steps) && i <= j <= |steps|
    requires x in states[i].output.at && TakenFrom(states[i].output, x) != SERVERS
    ensures |PoolOf(states[j].output, SERVERS).free| != PoolOf(states[j].output, SERVERS).count
    ensures var p := TakenFrom(states[i].output, x);
            |PoolOf(states[j].output, p).free| != PoolOf(states[j].output, p).count
  {
    hide Inv, Enabled, Apply, Timely, PeerOk, PoolOf, TakenFrom;
    PeerStays(states, steps, i, j, x);
    PeerInv(states, steps, j);
    MissingAtServers(states[j], x);
    SurplusElsewhere(states[j], x);
  }

  /** A send leaves its context without an owner exactly if the packet does not fit the buffer. */
  lemma LostIff(s: Net, a: Step)
    requires Inv(s) && Enabled(s, a)
    ensures Apply(s, a).lost != s.lost <==> a.Send? && PEER_PACKET_HEAD + a.len > MAX_OUTPUT_BUFFER
  {
    hide ConnsOk, Owned, InputHome, Accounts, InFlightOut, InFlightIn, Pop, Push, AsyncSend, AsyncRecv;
    if a.Send? { assert a.x in s.held && a.x !in s.lost; }
  }

  // ----- runs

  /** A run up to the first receive on an accepted connection, with a stream at hand. */
  lemma Greeted() returns (states: seq<Net>, steps: seq<Step>)
    ensures IsRun(states, steps) && TimelyRun(states, steps) && PeerRun(steps) && |steps| == 4
    ensures forall i :: 0 <= i < 4 ==> !steps[i].Send? && !steps[i].OpenFailed?
    ensures var s := states[4];
            && s.conns.Keys == {1} && s.conns[1].stage.Live? && s.conns[1].pool == CLIENTS && s.conns[1].connected == 1
            && s.conns[1].disc == 0 && s.conns[1].iorefs == 1 && s.conns[1].iorefmax == IOREFMAX
            && s.conns[1].sends == {}
            && 1 !in s.starting && s.held == {0} && s.lost == {}
            && s.output == Family(map[SERVERS := Pool([], 1)], map[0 := SERVERS], map[0 := SERVERS])
  {
    var a0, a1 := NewStream(SERVERS, 0), Open(1, IOREFMAX, CLIENTS);
    var a2, a3 := Announce(1), FirstRecv(1, 7, Success, Success);
    var s0 := Start();
    var s1 := Apply(s0, a0);
    var s2 := Apply(s1, a1);
    var s3 := Apply(s2, a2);
    var s4 := Apply(s3, a3);
    states, steps := [s0, s1, s2, s3, s4], [a0, a1, a2, a3];
    assert s1.output.pools == map[SERVERS := Pool([], 1)];
  }

  lemma TimelyExtended(states: seq<Net>, steps: seq<Step>, s: Net, a: Step)
    requires IsRun(states, steps) && TimelyRun(states, steps) && PeerRun(steps)
    requires Enabled(states[|steps|], a) && Timely(states[|steps|], a) && !a.NewStream?
    requires s == Apply(states[|steps|], a)
    ensures IsRun(states + [s], steps + [a]) && TimelyRun(states + [s], steps + [a]) && PeerRun(steps + [a])
  {
    hide Enabled, Apply, Timely;
    Extended(states, steps, s, a);
  }

  /** The streams of the peer protocol accept packets that are too large: a run that loses one. */
  lemma LostExample() returns (states: seq<Net>, steps: seq<Step>)
    ensures IsRun(states, steps) && TimelyRun(states, steps) && PeerRun(steps) && states[|steps|].lost != {}
    ensures steps != [] && steps[|steps| - 1].Send? && steps[|steps| - 1].len <= MAX_PEER_BUFFER
  {
    hide Inv;
    var prefix, done := Greeted();
    var a := Send(1, 0, MAX_PEER_BUFFER, Success, Success);
    var s := Apply(prefix[4], a);
    TimelyExtended(prefix, done, s, a);
    states, steps := prefix + [s], done + [a];
    assert s.lost == {0};
  }

  /** One small packet sent to a peer client, completed, with nothing outstanding: the pool it came
      from has one context too few, the other one too many. */
  lemma StrayExample() returns (states: seq<Net>, steps: seq<Step>)
    ensures IsRun(states, steps) && TimelyRun(states, steps) && PeerRun(steps)
    ensures forall i :: 0 <= i < |steps| && steps[i].Send? ==> PEER_PACKET_HEAD + steps[i].len <= MAX_OUTPUT_BUFFER
    ensures var s := states[|steps|];
            && Outstanding(s) == {} && Strays(s.output) == {0}
            && PoolOf(s.output, SERVERS) == Pool([], 1) && PoolOf(s.output, CLIENTS) == Pool([0], 0)
  {
    hide Inv, TimelyRun, PeerRun, IsRun;
    var prefix, done := Greeted();
    var s0 := prefix[4];
    var a, b := Send(1, 0, 10, Success, Success), SendDone(1, 0);
    var s1 := Apply(s0, a);
    var s2 := Apply(s1, b);
    TimelyExtended(prefix, done, s1, a);
    TimelyExtended(prefix + [s1], done + [a], s2, b);
    states, steps := prefix + [s1] + [s2], done + [a] + [b];
    assert steps[4] == a && steps[5] == b && forall i :: 0 <= i < 4 ==> steps[i] == done[i];
    assert states[|steps|] == s2 && s2.output.at == map[0 := CLIENTS];
    assert s2.conns.Keys == {1} && InFlightOut(s2) == {};
  }

  // ----- the pool in the form of the source

  lemma ListTaken(q: Pool, home: set<Ctx>, at: set<Ctx>, out: set<Ctx>)
    requires PoolOk(q, home, at - out) && q.free != []
    ensures var x := q.free[0]; x in at && x !in out && PoolOk(q.(free := q.free[1..]), home, at - (out + {x}))
  {
    hide Distinct;
    TailOf(q.free);
    assert q.free[0] in Elements(q.free);
    assert at - (out + {q.free[0]}) == (at - out) - {q.free[0]};
  }

  lemma ListGrown(q: Pool, home: set<Ctx>, at: set<Ctx>, out: set<Ctx>, x: Ctx)
    requires PoolOk(q, home, at - out) && q.free == [] && x !in home && x !in at && out <= at
    ensures PoolOk(q.(count := q.count + 1), home + {x}, (at + {x}) - (out + {x}))
  {
    assert (at + {x}) - (out + {x}) == at - out;
  }

  /** One side of a pool.  home are the contexts it allocated, at those that are in its list or
      were taken from it, out the latter. */
  class ContextPool {
    var free: seq<Ctx>
    var count: nat
    ghost var home: set<Ctx>
    ghost var at: set<Ctx>
    ghost var out: set<Ctx>

    constructor ()
      ensures Valid() && free == [] && count == 0 && home == {} && at == {} && out == {}
    {
      free, count, home, at, out := [], 0, {}, {}, {};
      new;
      assert Elements([]) == {};
    }

    ghost predicate Valid()
      reads this
    {
      out <= at && PoolOk(Pool(free, count), home, at - out)
    }

    /** PopInputContext and PopOutputContext; memory may be short. */
    method PopContext(spare: Ctx, memory: bool) returns (ok: bool, x: Ctx)
      requires Valid() && spare !in at && spare !in home
      modifies this
      ensures Valid() && (ok <==> old(free) != [] || memory)
      ensures ok ==> x !in old(out) && out == old(out) + {x}
      ensures ok ==> if old(free) != [] then x == old(free)[0] && free == old(free)[1..] && at == old(at)
                                             && home == old(home) && count == old(count)
                     else x == spare && free == [] && at == old(at) + {x} && home == old(home) + {x}
                          && count == old(count) + 1
      ensures !ok ==> free == old(free) && out == old(out) && at == old(at) && home == old(home) && count == old(count)
    {
      hide PoolOk;
      if free != [] {
        ListTaken(Pool(free, count), home, at, out);
        x, free := free[0], free[1..];
      } else {
        if !memory { return false, spare; }
        ListGrown(Pool(free, count), home, at, out, spare);
        x, count, at, home := spare, count + 1, at + {spare}, home + {spare};
      }
      ok, out := true, out + {x};
    }

    /** PushInputContext and PushOutputContext, for a context of this pool or of another one. */
    method PushContext(x: Ctx)
      requires Valid() && x !in free
      modifies `free, `at, `out
      ensures Valid() && free == [x] + old(free) && at == old(at) + {x} && out == old(out) - {x}
    {
      assert Elements([x] + free) == Elements(free) + {x};
      assert x !in Elements(free);
      free := [x] + free;
      at, out := at + {x}, out - {x};
    }

    /** A context that was taken from here has been pushed elsewhere. */
    ghost method Leaves(x: Ctx)
      requires Valid() && x in out
      modifies `at, `out
      ensures Valid() && at == old(at) - {x} && out == old(out) - {x}
    {
      assert at - out == (at - {x}) - (out - {x});
      at, out := at - {x}, out - {x};
    }

    /** Destroy, once its wait is over: it goes ahead exactly if as many contexts are out as came from
        other pools without others going there, and frees what is in the list, each once. */
    method Destroy() returns (done: bool, freed: seq<Ctx>)
      requires Valid()
      modifies `free
      ensures done <==> |out| + |home - at| == |at - home|
      ensures at == home ==> (done <==> out == {})
      ensures done ==> free == [] && Distinct(freed) && Elements(freed) == at - out
      ensures !done ==> free == old(free) && freed == []
    {
      hide Elements, Distinct;
      freed := [];
      ElementsSize(free);
      Sizes(at, out);
      Sizes(at, home);
      Sizes(home, at);
      assert at * out == out && home * at == at * home;
      if at == home { assert at - home == {} && home - at == {}; }
      if |free| != count { return false, freed; }
      while free != []
        invariant freed + free == old(free)
        decreases |free|
      {
        assert freed + free == freed + [free[0]] + free[1..];
        freed, free := freed + [free[0]], free[1..];
      }
      done := true;
      assert freed == old(free);
    }
  }
}
