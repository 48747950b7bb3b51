/** Connections over completion ports: the count of I/O in flight, the flag that lets only one
    disconnect through, and the pools that recycle I/O contexts.  Winsock may succeed, leave an
    operation pending or fail; every operation that was accepted completes exactly once.  Any
    number of threads handle completions; between the moment a receive is taken from the queue
    and the moment it is dealt with, other threads may do anything. */
module StarNet {
  import opened Common

  type Ctx = nat
  type ConnId = nat
  type PoolId = nat

  datatype Outcome = Success | IoPending | Failure

  /** SList of free contexts, and the counter of those the pool allocated. */
  datatype Pool = Pool(free: seq<Ctx>, count: nat)

  /** The input or the output side of all pools.  home is the pool that allocated a context, at
      the pool whose list it is in or was last taken from. */
  datatype Family = Family(pools: map<PoolId, Pool>, home: map<Ctx, PoolId>, at: map<Ctx, PoolId>)

  /** A connection whose accept failed is abandoned: nobody closes it.  One that was connected, but
      without its socket option, is mute: the program is never told of it. */
  datatype Stage = Idle | Opening | Live | Abandoned | Mute

  datatype Conn = Conn(
    stage: Stage,
    pool: PoolId,         // context_pool_
    connected: int,       // connected_
    iorefs: int,          // iorefs_
    iorefmax: int,        // iorefmax_
    sends: set<Ctx>,      // sends posted and not yet completed
    recvs: set<Ctx>,      // receives posted and not yet completed
    busy: set<Ctx>,       // receives whose completion is being handled
    disc: int,            // disconnect completions queued
    ended: nat,           // calls of OnDisconnect in this episode
    refused: bool)        // Close was refused

  /** owner is the field connection_ of the contexts; held are the buffers that streams of the
      program own, lost those that nobody owns any more.  starting has one entry for every worker
      that has set connected_ and called OnConnection, and has not yet gone on from there. */
  datatype Net = Net(
    conns: map<ConnId, Conn>,
    owner: map<Ctx, ConnId>,
    input: Family,
    output: Family,
    held: set<Ctx>,
    lost: set<Ctx>,
    starting: multiset<ConnId>)

  const PEER_PACKET_HEAD: nat := 8
  const MAX_OUTPUT_BUFFER: nat := 65500
  const MAX_PEER_BUFFER: nat := 65536
  const IOREFMAX: int := 65536

  function Fresh(refmax: int, pool: PoolId): Conn {
    Conn(Opening, pool, 0, 0, refmax, {}, {}, {}, 0, 0, false)
  }

  // ----- the pools

  function PoolOf(f: Family, p: PoolId): Pool {
    if p in f.pools then f.pools[p] else Pool([], 0)
  }

  /** PopInputContext and PopOutputContext of pool p; spare is what the allocator would return. */
  function Pop(f: Family, p: PoolId, spare: Ctx): (Family, Ctx) {
    var q := PoolOf(f, p);
    if q.free != [] then (f.(pools := f.pools[p := q.(free := q.free[1..])]), q.free[0])
    else (Family(f.pools[p := q.(count := q.count + 1)], f.home[spare := p], f.at[spare := p]), spare)
  }

  /** Whatever pool x came from, it is now in the list of p. */
  function Push(f: Family, p: PoolId, x: Ctx): Family {
    var q := PoolOf(f, p);
    f.(pools := f.pools[p := q.(free := [x] + q.free)], at := f.at[x := p])
  }

  /** The pool that x was taken from, and the pool that allocated it. */
  function TakenFrom(f: Family, x: Ctx): PoolId {
    if x in f.at then f.at[x] else 0
  }

  function HomeOf(f: Family, x: Ctx): PoolId {
    if x in f.home then f.home[x] else 0
  }

  // ----- operations of a connection

  /** AsyncDisconnect: only the one that turns connected_ from 1 to 0 posts the request. */
  function AsyncDisconnect(c: Conn, o: Outcome): Conn {
    if c.connected == 1 then c.(connected := 0, disc := if o.Failure? then c.disc else c.disc + 1) else c
  }

  /** AsyncSend(Context*): a context that is not sent goes to the pool of the connection. */
  function AsyncSend(c: Conn, f: Family, x: Ctx, o: Outcome, d: Outcome): (Conn, Family) {
    if c.iorefs > c.iorefmax then (AsyncDisconnect(c, d), Push(f, c.pool, x))
    else
      var c1 := c.(iorefs := c.iorefs + 1);
      if o.Failure? then
        var c2 := AsyncDisconnect(c1, d);
        (c2.(iorefs := c2.iorefs - 1), Push(f, c.pool, x))
      else (c1.(sends := c1.sends + {x}), f)
  }

  /** AsyncRecv. */
  function AsyncRecv(c: Conn, f: Family, x: Ctx, o: Outcome, d: Outcome): (Conn, Family) {
    var c1 := c.(iorefs := c.iorefs + 1);
    if o.Failure? then
      var c2 := AsyncDisconnect(c1, d);
      (c2.(iorefs := c2.iorefs - 1), Push(f, c.pool, x))
    else (c1.(recvs := c1.recvs + {x}), f)
  }

  /** Close is refused unless nothing is in flight and the connection is down. */
  function Close(c: Conn): Conn {
    if c.iorefs != 0 || c.connected != 0 then c.(refused := true) else c.(stage := Idle)
  }

  // ----- steps

  /** How the completion of an accept or connect can go wrong before OnConnection. */
  datatype Mishap = AcceptFailed | ConnectFailed | ConnectOption

  /** The completion of an accept or connect that went well is two steps: Announce up to the call
      of OnConnection, then FirstRecv, or TurnAway if the program refused or no context was left. */
  datatype Step =
    | Open(c: ConnId, refmax: int, pool: PoolId)
    | OpenFailed(c: ConnId, how: Mishap)
    | Announce(c: ConnId)
    | FirstRecv(c: ConnId, spare: Ctx, o: Outcome, d: Outcome)
    | TurnAway(c: ConnId, d: Outcome)
    | TakeRecv(c: ConnId, x: Ctx)
    | EndOfData(c: ConnId, x: Ctx, d: Outcome)
    | Data(c: ConnId, x: Ctx, o: Outcome, d: Outcome)
    | SendDone(c: ConnId, x: Ctx)
    | DisconnectDone(c: ConnId)
    | Disconnect(c: ConnId, d: Outcome)
    | NewStream(pool: PoolId, spare: Ctx)
    | DropStream(x: Ctx)
    | Send(c: ConnId, x: Ctx, len: nat, o: Outcome, d: Outcome)

  predicate Unused(s: Net, x: Ctx) {
    x !in s.input.home && x !in s.output.home
  }

  /** What may happen next: completions of what is in flight, and calls by the program, which
      uses a connection only between OnConnection and OnDisconnect. */
  predicate Enabled(s: Net, a: Step) {
    match a
    case Open(c, refmax, _) => c in s.conns ==> s.conns[c].stage.Idle?
    case OpenFailed(c, _) => c in s.conns && s.conns[c].stage.Opening?
    case Announce(c) => c in s.conns && s.conns[c].stage.Opening?
    case FirstRecv(c, spare, _, _) => c in s.conns && c in s.starting && Unused(s, spare)
    case TurnAway(c, _) => c in s.conns && c in s.starting
    case TakeRecv(c, x) => c in s.conns && x in s.conns[c].recvs
    case EndOfData(c, x, _) => c in s.conns && x in s.conns[c].busy
    case Data(c, x, _, _) => c in s.conns && x in s.conns[c].busy
    case SendDone(c, x) => c in s.conns && x in s.conns[c].sends
    case DisconnectDone(c) => c in s.conns && s.conns[c].disc > 0
    case Disconnect(c, _) => c in s.conns && s.conns[c].stage.Live?
    case NewStream(_, spare) => Unused(s, spare)
    case DropStream(x) => x in s.held
    case Send(c, x, _, _, _) => c in s.conns && s.conns[c].stage.Live? && x in s.held
  }

  /** A failed connect is closed; a failed accept is left alone; and if only the socket option
      cannot be set, a connect has already raised the flag. */
  function Failed(k: Conn, how: Mishap): Conn {
    match how
    case AcceptFailed => k.(stage := Abandoned)
    case ConnectFailed => Close(k)
    case ConnectOption => k.(connected := 1, stage := Mute)
  }

  function Put(s: Net, c: ConnId, k: Conn): Net {
    s.(conns := s.conns[c := k])
  }

  /** The same when x was handed to c. */
  function PutOwner(s: Net, c: ConnId, k: Conn, x: Ctx): Net {
    s.(conns := s.conns[c := k], owner := s.owner[x := c])
  }

  function Apply(s: Net, a: Step): Net
    requires Enabled(s, a)
  {
    match a
    case Open(c, refmax, pool) => Put(s, c, Fresh(refmax, pool))
    case OpenFailed(c, how) => Put(s, c, Failed(s.conns[c], how))
    case Announce(c) =>
      Put(s.(starting := s.starting + multiset{c}), c, s.conns[c].(connected := 1, stage := Live))
    case FirstRecv(c, spare, o, d) =>
      var (f, x) := Pop(s.input, s.conns[c].pool, spare);
      var (k, f') := AsyncRecv(s.conns[c], f, x, o, d);
      PutOwner(s.(input := f', starting := s.starting - multiset{c}), c, k, x)
    case TurnAway(c, d) =>
      Put(s.(starting := s.starting - multiset{c}), c, AsyncDisconnect(s.conns[c], d))
    case TakeRecv(c, x) =>
      var k := s.conns[c];
      Put(s, c, k.(recvs := k.recvs - {x}, busy := k.busy + {x}))
    case EndOfData(c, x, d) =>
      var k := AsyncDisconnect(s.conns[c], d);
      Put(s.(input := Push(s.input, k.pool, x)), c, k.(iorefs := k.iorefs - 1, busy := k.busy - {x}))
    case Data(c, x, o, d) =>
      var (k, f) := AsyncRecv(s.conns[c], s.input, x, o, d);
      PutOwner(s.(input := f), c, k.(iorefs := k.iorefs - 1, busy := k.busy - {x}), x)
    case SendDone(c, x) =>
      var k := s.conns[c];
      Put(s.(output := Push(s.output, k.pool, x)), c, k.(iorefs := k.iorefs - 1, sends := k.sends - {x}))
    case DisconnectDone(c) =>
      var k := s.conns[c];
      if k.iorefs != 0 then s
      else Put(s, c, Close(k.(disc := k.disc - 1, ended := k.ended + 1)))
    case Disconnect(c, d) => Put(s, c, AsyncDisconnect(s.conns[c], d))
    case NewStream(pool, spare) =>
      var (f, x) := Pop(s.output, pool, spare);
      s.(output := f, held := s.held + {x})
    case DropStream(x) => s.(output := Push(s.output, TakenFrom(s.output, x), x), held := s.held - {x})
    case Send(c, x, len, o, d) =>
      if PEER_PACKET_HEAD + len > MAX_OUTPUT_BUFFER then s.(held := s.held - {x}, lost := s.lost + {x})
      else
        var (k, f) := AsyncSend(s.conns[c], s.output, x, o, d);
        PutOwner(s.(output := f, held := s.held - {x}), c, k, x)
  }

  // ----- invariants

  function Elements(s: seq<Ctx>): set<Ctx> {
    set x | x in s
  }

  function Flying(k: Conn): nat {
    |k.sends| + |k.recvs| + |k.busy|
  }

  /** iorefs_ counts exactly what is in flight; the flag and the queued disconnect exclude each
      other; a connection that is not in use has nothing in flight. */
  predicate ConnOk(k: Conn) {
    && k.iorefs == Flying(k) && (forall x :: x in k.recvs ==> x !in k.busy)
    && 0 <= k.connected && 0 <= k.disc && k.connected + k.disc <= 1
    && k.ended <= 1 && !k.refused && (!k.stage.Idle? ==> k.ended == 0)
    && (!k.stage.Live? ==> k.iorefs == 0) && (!k.stage.Live? && !k.stage.Mute? ==> k.connected == 0 && k.disc == 0)
  }

  function InFlightOut(s: Net): set<Ctx> {
    set x | x in s.owner && s.owner[x] in s.conns && x in s.conns[s.owner[x]].sends
  }

  predicate Receiving(k: Conn, x: Ctx) {
    x in k.recvs || x in k.busy
  }

  function InFlightIn(s: Net): set<Ctx> {
    set x | x in s.owner && s.owner[x] in s.conns && Receiving(s.conns[s.owner[x]], x)
  }

  /** The contexts of m in pool p. */
  function In(m: map<Ctx, PoolId>, p: PoolId): set<Ctx> {
    set x | x in m && m[x] == p
  }

  /** The list holds what is free, once each, and the counter counts what was allocated. */
  predicate PoolOk(q: Pool, home: set<Ctx>, free: set<Ctx>) {
    Distinct(q.free) && Elements(q.free) == free && q.count == |home|
  }

  /** Every context is in the list of the pool it is at, or out. */
  ghost predicate Accounts(f: Family, out: set<Ctx>) {
    && f.home.Keys == f.at.Keys && out <= f.at.Keys
    && forall p: PoolId :: PoolOk(PoolOf(f, p), In(f.home, p), In(f.at, p) - out)
  }

  /** Output contexts are free, held, lost or in flight, in one way only. */
  ghost predicate OutState(f: Family, held: set<Ctx>, lost: set<Ctx>, flight: set<Ctx>) {
    held !! lost && (held + lost) !! flight && Accounts(f, held + lost + flight)
  }

  /** A receive was taken from the pool of its connection, and input contexts never change pools. */
  ghost predicate InputHome(s: Net) {
    && s.input.at == s.input.home
    && forall c, x :: c in s.conns && Receiving(s.conns[c], x) ==> x in s.input.at && s.input.at[x] == s.conns[c].pool
  }

  /** What a connection has in flight knows that connection. */
  ghost predicate Owned(s: Net) {
    forall c, x :: c in s.conns && (x in s.conns[c].sends || Receiving(s.conns[c], x)) ==>
      x in s.owner && s.owner[x] == c
  }

  ghost predicate ConnsOk(s: Net) {
    forall c :: c in s.conns ==> ConnOk(s.conns[c])
  }

  ghost predicate Inv(s: Net) {
    && ConnsOk(s) && Owned(s) && s.input.home.Keys !! s.output.home.Keys && InputHome(s)
    && OutState(s.output, s.held, s.lost, InFlightOut(s)) && Accounts(s.input, InFlightIn(s))
  }

  // ----- one connection

  lemma DisconnectOk(k: Conn, d: Outcome)
    requires ConnOk(k)
    ensures var k' := AsyncDisconnect(k, d);
            ConnOk(k') && k' == k.(connected := k'.connected, disc := k'.disc)
  {
    hide Flying;
    assert Flying(AsyncDisconnect(k, d)) == Flying(k) by { SameFlying(k, AsyncDisconnect(k, d)); }
  }

  lemma SameFlying(k: Conn, k': Conn)
    requires k.sends == k'.sends && k.recvs == k'.recvs && k.busy == k'.busy
    ensures Flying(k) == Flying(k')
  {
  }

  lemma NoRefs(k: Conn)
    requires ConnOk(k) && k.iorefs == 0
    ensures k.sends == {} && k.recvs == {} && k.busy == {}
  {
  }

  lemma FlyingLive(k: Conn, x: Ctx)
    requires ConnOk(k) && (x in k.sends || Receiving(k, x))
    ensures k.stage.Live? && k.iorefs > 0
  {
    if k.iorefs == 0 { NoRefs(k); }
  }

  /** The outcome of AsyncRecv. */
  lemma RecvOk(k: Conn, f: Family, x: Ctx, o: Outcome, d: Outcome)
    requires ConnOk(k) && (k.stage.Live? || o.Failure?) && !Receiving(k, x)
    ensures var (k', f') := AsyncRecv(k, f, x, o, d);
            && ConnOk(k') && k'.pool == k.pool && k'.sends == k.sends && k'.busy == k.busy
            && k'.recvs == (if o.Failure? then k.recvs else k.recvs + {x})
            && f' == (if o.Failure? then Push(f, k.pool, x) else f)
  {
  }

  /** A receive that is posted again is counted before the old one is counted off. */
  lemma Reposted(k: Conn, f: Family, x: Ctx, o: Outcome, d: Outcome)
    requires ConnOk(k) && x in k.busy
    ensures var (k1, f') := AsyncRecv(k, f, x, o, d);
            var k2 := k1.(iorefs := k1.iorefs - 1, busy := k1.busy - {x});
            && ConnOk(k2) && k2.pool == k.pool && k2.sends == k.sends && k2.busy == k.busy - {x}
            && k2.recvs == (if o.Failure? then k.recvs else k.recvs + {x})
            && f' == (if o.Failure? then Push(f, k.pool, x) else f)
  {
    FlyingLive(k, x);
  }

  /** The outcome of AsyncSend: with no more than iorefmax_ in flight and a socket that does not
      refuse the context is in flight; else it is back in a pool and the connection goes down. */
  lemma SendPosted(k: Conn, f: Family, x: Ctx, o: Outcome, d: Outcome)
    requires ConnOk(k)
    ensures var (k', f') := AsyncSend(k, f, x, o, d);
            if |k.sends| + |k.recvs| + |k.busy| <= k.iorefmax && !o.Failure?
            then k'.sends == k.sends + {x} && f' == f && k'.connected == k.connected && k'.disc == k.disc
            else k'.sends == k.sends && f' == Push(f, k.pool, x) && k'.connected == 0
                 && k'.disc == if k.connected == 1 && !d.Failure? then 1 else k.disc
  {
  }

  lemma SendOk(k: Conn, f: Family, x: Ctx, o: Outcome, d: Outcome)
    requires ConnOk(k) && k.stage.Live? && x !in k.sends
    ensures var (k', f') := AsyncSend(k, f, x, o, d);
            && ConnOk(k') && k'.pool == k.pool && k'.recvs == k.recvs && k'.busy == k.busy
            && ((k'.sends == k.sends + {x} && f' == f) || (k'.sends == k.sends && f' == Push(f, k.pool, x)))
  {
    hide AsyncDisconnect, Flying;
    DisconnectOk(k, d);
    DisconnectCounted(k, d);
    assert Flying(k.(sends := k.sends + {x})) == Flying(k) + 1 by { OneMore(k, x); }
    assert Flying(k.(iorefs := k.iorefs + 1, sends := k.sends + {x})) == Flying(k.(sends := k.sends + {x})) by {
      SameFlying(k.(iorefs := k.iorefs + 1, sends := k.sends + {x}), k.(sends := k.sends + {x}));
    }
  }

  lemma OneMore(k: Conn, x: Ctx)
    requires x !in k.sends
    ensures Flying(k.(sends := k.sends + {x})) == Flying(k) + 1
  {
  }

  /** Counting an operation that then fails changes nothing. */
  lemma DisconnectCounted(k: Conn, d: Outcome)
    ensures var k1 := AsyncDisconnect(k.(iorefs := k.iorefs + 1), d);
            k1.(iorefs := k1.iorefs - 1) == AsyncDisconnect(k, d)
  {
  }

  lemma EndOfDataOk(k: Conn, x: Ctx, d: Outcome)
    requires ConnOk(k) && x in k.busy
    ensures var k1 := AsyncDisconnect(k, d);
            var k2 := k1.(iorefs := k1.iorefs - 1, busy := k1.busy - {x});
            ConnOk(k2) && k2.pool == k.pool && k2.sends == k.sends && k2.recvs == k.recvs && k2.busy == k.busy - {x}
  {
    FlyingLive(k, x);
  }

  lemma TakeOk(k: Conn, x: Ctx)
    requires ConnOk(k) && x in k.recvs
    ensures ConnOk(k.(recvs := k.recvs - {x}, busy := k.busy + {x}))
  {
    FlyingLive(k, x);
  }

  lemma SendDoneOk(k: Conn, x: Ctx)
    requires ConnOk(k) && x in k.sends
    ensures ConnOk(k.(iorefs := k.iorefs - 1, sends := k.sends - {x}))
  {
    FlyingLive(k, x);
  }

  // ----- the pools

  lemma TailOf(l: seq<Ctx>)
    requires Distinct(l) && l != []
    ensures Distinct(l[1..]) && l[0] !in Elements(l[1..]) && Elements(l) == Elements(l[1..]) + {l[0]}
  {
    assert l == [l[0]] + l[1..];
    assert forall i :: 0 <= i < |l[1..]| ==> l[1..][i] == l[i + 1];
  }

  lemma PoolAt(f: Family, out: set<Ctx>, p: PoolId)
    requires Accounts(f, out)
    ensures PoolOk(PoolOf(f, p), In(f.home, p), In(f.at, p) - out)
  {
  }

  lemma PushAccounts(f: Family, out: set<Ctx>, p: PoolId, x: Ctx)
    requires Accounts(f, out) && x in out
    ensures Accounts(Push(f, p, x), out - {x})
  {
    hide PoolOk, In;
    var f' := Push(f, p, x);
    assert f'.at.Keys == f.at.Keys;
    forall r: PoolId ensures PoolOk(PoolOf(f', r), In(f'.home, r), In(f'.at, r) - (out - {x})) {
      PoolAt(f, out, r);
      PushedIn(f, out, p, x, r);
    }
  }

  lemma PushedIn(f: Family, out: set<Ctx>, p: PoolId, x: Ctx, r: PoolId)
    requires x in out && x in f.at && PoolOk(PoolOf(f, r), In(f.home, r), In(f.at, r) - out)
    ensures PoolOk(PoolOf(Push(f, p, x), r), In(f.home, r), In(f.at[x := p], r) - (out - {x}))
  {
    var free := In(f.at, r) - out;
    if r == p {
      assert In(f.at[x := p], r) - (out - {x}) == free + {x};
      assert Elements([x] + PoolOf(f, p).free) == Elements(PoolOf(f, p).free) + {x};
      assert x !in Elements(PoolOf(f, p).free);
    } else {
      assert In(f.at[x := p], r) - (out - {x}) == free;
    }
  }

  lemma PoppedIn(f: Family, out: set<Ctx>, p: PoolId, r: PoolId)
    requires PoolOf(f, p).free != []
    requires PoolOk(PoolOf(f, r), In(f.home, r), In(f.at, r) - out)
    requires PoolOk(PoolOf(f, p), In(f.home, p), In(f.at, p) - out)
    ensures var x := PoolOf(f, p).free[0];
            && x in f.at && f.at[x] == p && x !in out
            && PoolOk(PoolOf(Pop(f, p, x).0, r), In(f.home, r), In(f.at, r) - (out + {x}))
  {
    hide Distinct;
    var l := PoolOf(f, p).free;
    TailOf(l);
    assert l[0] in Elements(l);
    if r == p {
      assert In(f.at, r) - (out + {l[0]}) == Elements(l) - {l[0]};
    } else {
      assert In(f.at, r) - (out + {l[0]}) == In(f.at, r) - out;
    }
  }

  lemma AllocatedIn(f: Family, out: set<Ctx>, p: PoolId, spare: Ctx, r: PoolId)
    requires PoolOf(f, p).free == [] && spare !in f.at && spare !in f.home
    requires PoolOk(PoolOf(f, r), In(f.home, r), In(f.at, r) - out)
    ensures var f' := Pop(f, p, spare).0; PoolOk(PoolOf(f', r), In(f'.home, r), In(f'.at, r) - (out + {spare}))
  {
    hide In, Elements, Distinct;
    var q, q' := PoolOf(f, r), PoolOf(Pop(f, p, spare).0, r);
    assert q'.free == q.free && q'.count == if r == p then q.count + 1 else q.count;
    PlacedIn(f.home, spare, p, r);
    PlacedIn(f.at, spare, p, r);
    assert In(f.at[spare := p], r) - (out + {spare}) == In(f.at, r) - out;
  }

  lemma PlacedIn(m: map<Ctx, PoolId>, x: Ctx, p: PoolId, r: PoolId)
    requires x !in m
    ensures x !in In(m, r) && In(m[x := p], r) == if r == p then In(m, r) + {x} else In(m, r)
  {
  }

  /** The context that is handed out was not out before. */
  lemma PopAccounts(f: Family, out: set<Ctx>, p: PoolId, spare: Ctx)
    requires Accounts(f, out) && spare !in f.home
    ensures var (f', x) := Pop(f, p, spare);
            && Accounts(f', out + {x}) && x !in out && x in f'.at && f'.at[x] == p
            && (if x in f.home then f'.home == f.home && f'.at == f.at
                else x == spare && f'.home == f.home[x := p] && f'.at == f.at[x := p])
  {
    hide PoolOk, In;
    var (f', x) := Pop(f, p, spare);
    PoolAt(f, out, p);
    if PoolOf(f, p).free != [] { PoppedIn(f, out, p, p); }
    forall r: PoolId ensures PoolOk(PoolOf(f', r), In(f'.home, r), In(f'.at, r) - (out + {x})) {
      PoolAt(f, out, r);
      if PoolOf(f, p).free != [] { PoppedIn(f, out, p, r); } else { AllocatedIn(f, out, p, spare, r); }
    }
    if PoolOf(f, p).free == [] { assert spare !in f.at.Keys; }
  }

  // output contexts

  lemma Sent(f: Family, held: set<Ctx>, lost: set<Ctx>, flight: set<Ctx>, x: Ctx, p: PoolId)
    requires OutState(f, held, lost, flight) && x in held
    ensures OutState(f, held - {x}, lost, flight + {x}) && x !in flight && x in f.home && x in f.at
    ensures OutState(f, held - {x}, lost + {x}, flight) && OutState(Push(f, p, x), held - {x}, lost, flight)
  {
    hide Accounts;
    var out := held + lost + flight;
    assert (held - {x}) + lost + (flight + {x}) == out;
    assert (held - {x}) + (lost + {x}) + flight == out;
    PushAccounts(f, out, p, x);
    assert out - {x} == (held - {x}) + lost + flight;
    Counted(f, out, x);
  }

  lemma Counted(f: Family, out: set<Ctx>, x: Ctx)
    requires Accounts(f, out) && x in out
    ensures x in f.home && x in f.at
  {
    assert x in f.at.Keys;
  }

  lemma Returned(f: Family, held: set<Ctx>, lost: set<Ctx>, flight: set<Ctx>, x: Ctx, p: PoolId)
    requires OutState(f, held, lost, flight) && x in flight
    ensures OutState(Push(f, p, x), held, lost, flight - {x}) && x in f.home
  {
    hide Accounts;
    var out := held + lost + flight;
    PushAccounts(f, out, p, x);
    assert out - {x} == held + lost + (flight - {x});
    Counted(f, out, x);
  }

  lemma Popped(f: Family, held: set<Ctx>, lost: set<Ctx>, flight: set<Ctx>, p: PoolId, spare: Ctx)
    requires OutState(f, held, lost, flight) && spare !in f.home
    ensures var (f', x) := Pop(f, p, spare);
            OutState(f', held + {x}, lost, flight) && f'.home.Keys <= f.home.Keys + {spare}
  {
    hide Accounts;
    var out := held + lost + flight;
    PopAccounts(f, out, p, spare);
    var (f', x) := Pop(f, p, spare);
    assert out + {x} == (held + {x}) + lost + flight;
  }

  // ----- what is in flight after a step

  /** Nothing moved. */
  lemma FlightsSame(s: Net, s': Net, c: ConnId, k: Conn)
    requires Owned(s) && s'.conns == s.conns[c := k] && s'.owner == s.owner
    requires forall x :: (c in s.conns && x in s.conns[c].sends) <==> x in k.sends
    requires forall x :: (c in s.conns && Receiving(s.conns[c], x)) <==> Receiving(k, x)
    ensures InFlightOut(s') == InFlightOut(s) && InFlightIn(s') == InFlightIn(s) && Owned(s')
  {
  }

  lemma OutAdded(s: Net, s': Net, c: ConnId, k: Conn, x: Ctx)
    requires Owned(s) && c in s.conns && s'.conns == s.conns[c := k] && s'.owner == s.owner[x := c]
    requires k.sends == s.conns[c].sends + {x} && k.recvs == s.conns[c].recvs && k.busy == s.conns[c].busy
    requires x !in InFlightOut(s) && x !in InFlightIn(s)
    ensures InFlightOut(s') == InFlightOut(s) + {x} && InFlightIn(s') == InFlightIn(s) && Owned(s')
  {
    NotFlying(s, x);
    NotReceiving(s, x);
  }

  lemma OutRemoved(s: Net, s': Net, c: ConnId, k: Conn, x: Ctx)
    requires Owned(s) && c in s.conns && s'.conns == s.conns[c := k] && s'.owner == s.owner && x in s.conns[c].sends
    requires k.sends == s.conns[c].sends - {x} && k.recvs == s.conns[c].recvs && k.busy == s.conns[c].busy
    ensures InFlightOut(s') == InFlightOut(s) - {x} && InFlightIn(s') == InFlightIn(s) && Owned(s')
            && x in InFlightOut(s)
  {
  }

  lemma InAdded(s: Net, s': Net, c: ConnId, k: Conn, x: Ctx)
    requires Owned(s) && c in s.conns && s'.conns == s.conns[c := k] && s'.owner == s.owner[x := c]
    requires k.sends == s.conns[c].sends && k.recvs == s.conns[c].recvs + {x} && k.busy == s.conns[c].busy
    requires x !in InFlightOut(s) && x !in InFlightIn(s)
    ensures InFlightIn(s') == InFlightIn(s) + {x} && InFlightOut(s') == InFlightOut(s) && Owned(s')
  {
    NotFlying(s, x);
    NotReceiving(s, x);
  }

  lemma InRemoved(s: Net, s': Net, c: ConnId, k: Conn, x: Ctx)
    requires Owned(s) && c in s.conns && s'.conns == s.conns[c := k]
             && (s'.owner == s.owner || s'.owner == s.owner[x := c])
    requires x in s.conns[c].busy && x !in s.conns[c].recvs
    requires k.sends == s.conns[c].sends && k.recvs == s.conns[c].recvs && k.busy == s.conns[c].busy - {x}
    ensures InFlightIn(s') == InFlightIn(s) - {x} && InFlightOut(s') == InFlightOut(s) && Owned(s')
            && x in InFlightIn(s)
  {
    assert Receiving(s.conns[c], x);
    assert s'.owner == s.owner;
  }

  lemma InMoved(s: Net, s': Net, c: ConnId, k: Conn, x: Ctx)
    requires Owned(s) && c in s.conns && s'.conns == s.conns[c := k]
             && (s'.owner == s.owner || s'.owner == s.owner[x := c])
    requires Receiving(s.conns[c], x)
    requires k.sends == s.conns[c].sends && forall y :: Receiving(k, y) <==> Receiving(s.conns[c], y)
    ensures InFlightIn(s') == InFlightIn(s) && InFlightOut(s') == InFlightOut(s) && Owned(s')
  {
    assert s'.owner == s.owner;
    FlightsSame(s, s', c, k);
  }

  /** Setting the owner of a context that is not in flight. */
  lemma OwnerSet(s: Net, s': Net, c: ConnId, k: Conn, x: Ctx)
    requires Owned(s) && c in s.conns && s'.conns == s.conns[c := k] && s'.owner == s.owner[x := c]
    requires k.sends == s.conns[c].sends && k.recvs == s.conns[c].recvs && k.busy == s.conns[c].busy
    requires x !in InFlightOut(s) && x !in InFlightIn(s)
    ensures InFlightIn(s') == InFlightIn(s) && InFlightOut(s') == InFlightOut(s) && Owned(s')
  {
    NotFlying(s, x);
    NotReceiving(s, x);
  }

  lemma NotFlying(s: Net, x: Ctx)
    requires Owned(s) && x !in InFlightOut(s)
    ensures forall c :: c in s.conns ==> x !in s.conns[c].sends
  {
  }

  lemma NotReceiving(s: Net, x: Ctx)
    requires Owned(s) && x !in InFlightIn(s)
    ensures forall c :: c in s.conns ==> !Receiving(s.conns[c], x)
  {
  }

  /** Receives move or end, or start with a context of the pool. */
  lemma HomePut(s: Net, s': Net, c: ConnId, k: Conn)
    requires InputHome(s) && s'.conns == s.conns[c := k] && s'.input.at == s'.input.home
    requires forall x :: x in s.input.at ==> x in s'.input.at && s'.input.at[x] == s.input.at[x]
    requires forall x :: Receiving(k, x) ==>
               (c in s.conns && k.pool == s.conns[c].pool && Receiving(s.conns[c], x))
               || (x in s'.input.at && s'.input.at[x] == k.pool)
    ensures InputHome(s')
  {
  }

  lemma ReceivingAt(s: Net, c: ConnId, x: Ctx)
    requires InputHome(s) && c in s.conns && Receiving(s.conns[c], x)
    ensures x in s.input.at && s.input.at[x] == s.conns[c].pool && s.input.at == s.input.home
  {
  }

  lemma ConnsPut(s: Net, s': Net, c: ConnId, k: Conn)
    requires ConnsOk(s) && s'.conns == s.conns[c := k] && ConnOk(k)
    ensures ConnsOk(s')
  {
    hide ConnOk;
  }

  // ----- every step

  /** A step that only changes flags of a connection, or moves a receive within it. */
  lemma FlagsInv(s: Net, c: ConnId, k: Conn)
    requires Inv(s) && ConnOk(k) && (forall x :: (c in s.conns && x in s.conns[c].sends) <==> x in k.sends)
    requires forall x :: (c in s.conns && Receiving(s.conns[c], x)) <==> Receiving(k, x)
    requires c in s.conns && k.pool != s.conns[c].pool ==> forall x :: !Receiving(k, x)
    ensures Inv(Put(s, c, k))
  {
    hide OutState, Accounts, ConnsOk, Owned, InputHome, InFlightOut, InFlightIn, ConnOk;
    ConnsPut(s, Put(s, c, k), c, k);
    FlightsSame(s, Put(s, c, k), c, k);
    assert s.input.at == s.input.home by { HomeSame(s); }
    HomePut(s, Put(s, c, k), c, k);
  }

  lemma HomeSame(s: Net)
    requires InputHome(s)
    ensures s.input.at == s.input.home
  {
  }

  lemma ConnAt(s: Net, c: ConnId)
    requires ConnsOk(s) && c in s.conns
    ensures ConnOk(s.conns[c])
  {
  }

  lemma OpenInv(s: Net, a: Step)
    requires Inv(s) && Enabled(s, a) && a.Open?
    ensures Inv(Apply(s, a))
  {
    hide OutState, Accounts, Owned, InputHome, InFlightOut, InFlightIn;
    if a.c in s.conns { NoRefs(s.conns[a.c]); }
    FlagsInv(s, a.c, Fresh(a.refmax, a.pool));
  }

  lemma OpenedInv(s: Net, a: Step)
    requires Inv(s) && Enabled(s, a) && (a.OpenFailed? || a.Announce? || a.TurnAway?)
    ensures Inv(Apply(s, a))
  {
    hide OutState, Accounts, ConnsOk, Owned, InputHome, InFlightOut, InFlightIn, AsyncDisconnect, Flying;
    var k := s.conns[a.c];
    ConnAt(s, a.c);
    var k' := if a.OpenFailed? then Failed(k, a.how)
              else if a.Announce? then k.(connected := 1, stage := Live) else AsyncDisconnect(k, a.d);
    assert k'.sends == k.sends && k'.recvs == k.recvs
      && k'.busy == k.busy by { if a.TurnAway? { DisconnectOk(k, a.d); } }
    SameFlying(k, k');
    if a.TurnAway? { DisconnectOk(k, a.d); }
    FlagsInv(s, a.c, k');
    SameConns(Put(s, a.c, k'), Apply(s, a));
  }

  /** The first receive must find the connection still up, or fail. */
  predicate Timely(s: Net, a: Step)
    requires Enabled(s, a)
  {
    a.FirstRecv? ==> s.conns[a.c].stage.Live? || a.o.Failure?
  }

  lemma FirstRecvInv(s: Net, a: Step)
    requires Inv(s) && Enabled(s, a) && a.FirstRecv? && Timely(s, a)
    ensures Inv(Apply(s, a))
  {
    hide OutState, Accounts, ConnsOk, Owned, InputHome, InFlightOut, InFlightIn, AsyncRecv, ConnOk, Pop, Push;
    var c, k := a.c, s.conns[a.c];
    ConnAt(s, c);
    PopAccounts(s.input, InFlightIn(s), k.pool, a.spare);
    HomeSame(s);
    var (f, x) := Pop(s.input, k.pool, a.spare);
    OutputApart(s, x);
    NotReceiving(s, x);
    RecvOk(k, f, x, a.o, a.d);
    var (k', f') := AsyncRecv(k, f, x, a.o, a.d);
    var s' := Apply(s, a);
    ConnsPut(s, s', c, k');
    PushBack(f, k.pool, x);
    if a.o.Failure? {
      PushAccounts(f, InFlightIn(s) + {x}, k.pool, x);
      assert InFlightIn(s) + {x} - {x} == InFlightIn(s);
      OwnerSet(s, s', c, k', x);
    } else {
      InAdded(s, s', c, k', x);
    }
    HomePut(s, s', c, k');
  }

  /** Otherwise a receive is in flight on a connection that is not up. */
  lemma LateRecv(s: Net, a: Step)
    requires Inv(s) && Enabled(s, a) && !Timely(s, a)
    ensures Apply(s, a).conns[a.c].iorefs == 1 && !Apply(s, a).conns[a.c].stage.Live? && !Inv(Apply(s, a))
  {
    hide OutState, Accounts, Owned, InputHome, InFlightOut, InFlightIn, Flying, Pop;
    ConnAt(s, a.c);
  }

  /** A context that goes back to the pool it came from. */
  lemma PushBack(f: Family, p: PoolId, x: Ctx)
    ensures Push(f, p, x).home == f.home
    ensures x in f.at && f.at[x] == p ==> Push(f, p, x).at == f.at
  {
    hide PoolOf;
  }

  /** A context that is not one of the output contexts is not in flight as one. */
  lemma OutputApart(s: Net, x: Ctx)
    requires OutState(s.output, s.held, s.lost, InFlightOut(s)) && x !in s.output.home
    ensures x !in InFlightOut(s)
  {
    hide PoolOk, In, InFlightOut;
    if x in InFlightOut(s) { Counted(s.output, s.held + s.lost + InFlightOut(s), x); }
  }

  lemma InputApart(s: Net, x: Ctx)
    requires Accounts(s.input, InFlightIn(s)) && x !in s.input.home
    ensures x !in InFlightIn(s)
  {
    hide PoolOk, In, InFlightIn;
    if x in InFlightIn(s) { Counted(s.input, InFlightIn(s), x); }
  }

  lemma EndOfDataInv(s: Net, a: Step)
    requires Inv(s) && Enabled(s, a) && a.EndOfData?
    ensures Inv(Apply(s, a))
  {
    hide OutState, Accounts, ConnsOk, Owned, InputHome, InFlightOut, InFlightIn, AsyncDisconnect, ConnOk;
    var c, k, x := a.c, s.conns[a.c], a.x;
    ConnAt(s, c);
    EndOfDataOk(k, x, a.d);
    BusyApart(k, x);
    var k1 := AsyncDisconnect(k, a.d);
    var k2 := k1.(iorefs := k1.iorefs - 1, busy := k1.busy - {x});
    var s' := Apply(s, a);
    ConnsPut(s, s', c, k2);
    InRemoved(s, s', c, k2, x);
    PushAccounts(s.input, InFlightIn(s), k.pool, x);
    ReceivingAt(s, c, x);
    PushBack(s.input, k.pool, x);
    HomePut(s, s', c, k2);
  }

  lemma BusyApart(k: Conn, x: Ctx)
    requires ConnOk(k) && x in k.busy
    ensures x !in k.recvs
  {
  }

  lemma DataInv(s: Net, a: Step)
    requires Inv(s) && Enabled(s, a) && a.Data?
    ensures Inv(Apply(s, a))
  {
    hide OutState, Accounts, ConnsOk, Owned, InputHome, InFlightOut, InFlightIn, AsyncRecv, ConnOk, Push;
    var c, k, x := a.c, s.conns[a.c], a.x;
    ConnAt(s, c);
    Reposted(k, s.input, x, a.o, a.d);
    BusyApart(k, x);
    var (k1, f) := AsyncRecv(k, s.input, x, a.o, a.d);
    var k2 := k1.(iorefs := k1.iorefs - 1, busy := k1.busy - {x});
    var s' := Apply(s, a);
    ConnsPut(s, s', c, k2);
    ReceivingAt(s, c, x);
    PushBack(s.input, k.pool, x);
    if a.o.Failure? {
      InRemoved(s, s', c, k2, x);
      PushAccounts(s.input, InFlightIn(s), k.pool, x);
    } else {
      InMoved(s, s', c, k2, x);
    }
    HomePut(s, s', c, k2);
  }

  lemma TakeInv(s: Net, a: Step)
    requires Inv(s) && Enabled(s, a) && a.TakeRecv?
    ensures Inv(Apply(s, a))
  {
    hide OutState, Accounts, ConnsOk, Owned, InputHome, InFlightOut, InFlightIn, ConnOk;
    var k := s.conns[a.c];
    ConnAt(s, a.c);
    TakeOk(k, a.x);
    FlagsInv(s, a.c, k.(recvs := k.recvs - {a.x}, busy := k.busy + {a.x}));
  }

  lemma SendDoneInv(s: Net, a: Step)
    requires Inv(s) && Enabled(s, a) && a.SendDone?
    ensures Inv(Apply(s, a))
  {
    hide OutState, Accounts, ConnsOk, Owned, InputHome, InFlightOut, InFlightIn, ConnOk;
    var c, k, x := a.c, s.conns[a.c], a.x;
    ConnAt(s, c);
    SendDoneOk(k, x);
    var k1 := k.(iorefs := k.iorefs - 1, sends := k.sends - {x});
    var s' := Apply(s, a);
    ConnsPut(s, s', c, k1);
    OutRemoved(s, s', c, k1, x);
    Returned(s.output, s.held, s.lost, InFlightOut(s), x, k.pool);
    HomeSame(s);
    HomePut(s, s', c, k1);
  }

  lemma DisconnectInv(s: Net, a: Step)
    requires Inv(s) && Enabled(s, a) && (a.Disconnect? || a.DisconnectDone?)
    ensures Inv(Apply(s, a))
  {
    hide OutState, Accounts, ConnsOk, Owned, InputHome, InFlightOut, InFlightIn, AsyncDisconnect, Flying;
    var k := s.conns[a.c];
    ConnAt(s, a.c);
    if a.Disconnect? {
      DisconnectOk(k, a.d);
      FlagsInv(s, a.c, AsyncDisconnect(k, a.d));
    } else if k.iorefs == 0 {
      var k1 := Close(k.(disc := k.disc - 1, ended := k.ended + 1));
      SameFlying(k, k1);
      FlagsInv(s, a.c, k1);
    }
  }

  /** Streams take and return contexts without touching a connection. */
  lemma StreamInv(s: Net, a: Step)
    requires Inv(s) && Enabled(s, a) && (a.NewStream? || a.DropStream?)
    ensures Inv(Apply(s, a))
  {
    hide OutState, Accounts, ConnsOk, Owned, InputHome, InFlightOut, InFlightIn, Pop, Push;
    var s' := Apply(s, a);
    SameConns(s, s');
    if a.NewStream? {
      Popped(s.output, s.held, s.lost, InFlightOut(s), a.pool, a.spare);
    } else {
      Sent(s.output, s.held, s.lost, InFlightOut(s), a.x, TakenFrom(s.output, a.x));
      PushBack(s.output, TakenFrom(s.output, a.x), a.x);
    }
  }

  lemma SameConns(s: Net, s': Net)
    requires s.conns == s'.conns && s.owner == s'.owner && s.input == s'.input && Owned(s) && ConnsOk(s) && InputHome(s)
    ensures Owned(s') && ConnsOk(s') && InputHome(s')
    ensures InFlightOut(s') == InFlightOut(s) && InFlightIn(s') == InFlightIn(s)
  {
    hide ConnOk;
  }

  lemma SendInv(s: Net, a: Step)
    requires Inv(s) && Enabled(s, a) && a.Send?
    ensures Inv(Apply(s, a))
  {
    hide OutState, Accounts, ConnsOk, Owned, InputHome, InFlightOut, InFlightIn, AsyncSend, ConnOk, Push;
    var s', c, x := Apply(s, a), a.c, a.x;
    Sent(s.output, s.held, s.lost, InFlightOut(s), x, s.conns[c].pool);
    if PEER_PACKET_HEAD + a.len > MAX_OUTPUT_BUFFER {
      SameConns(s, s');
    } else {
      var k := s.conns[c];
      ConnAt(s, c);
      InputApart(s, x);
      NotFlying(s, x);
      SendOk(k, s.output, x, a.o, a.d);
      var (k', f) := AsyncSend(k, s.output, x, a.o, a.d);
      ConnsPut(s, s', c, k');
      PushBack(s.output, k.pool, x);
      HomeSame(s);
      HomePut(s, s', c, k');
      if x in k'.sends { OutAdded(s, s', c, k', x); } else { OwnerSet(s, s', c, k', x); }
    }
  }

  /** Every step keeps the invariant, except a first receive that is posted too late. */
  lemma StepInv(s: Net, a: Step)
    requires Inv(s) && Enabled(s, a)
    ensures Inv(Apply(s, a)) <==> Timely(s, a)
  {
    hide Inv, Apply, Enabled;
    match a
    case Open(_, _, _) => OpenInv(s, a);
    case OpenFailed(_, _) => OpenedInv(s, a);
    case Announce(_) => OpenedInv(s, a);
    case FirstRecv(_, _, _, _) => if Timely(s, a) { FirstRecvInv(s, a); } else { LateRecv(s, a); }
    case TurnAway(_, _) => OpenedInv(s, a);
    case TakeRecv(_, _) => TakeInv(s, a);
    case EndOfData(_, _, _) => EndOfDataInv(s, a);
    case Data(_, _, _, _) => DataInv(s, a);
    case SendDone(_, _) => SendDoneInv(s, a);
    case DisconnectDone(_) => DisconnectInv(s, a);
    case Disconnect(_, _) => DisconnectInv(s, a);
    case NewStream(_, _) => StreamInv(s, a);
    case DropStream(_) => StreamInv(s, a);
    case Send(_, _, _, _, _) => SendInv(s, a);
  }

  // ----- runs

  function Start(): Net {
    Net(map[], map[], Family(map[], map[], map[]), Family(map[], map[], map[]), {}, {}, multiset{})
  }

  lemma StartInv()
    ensures Inv(Start())
  {
    var s := Start();
    assert InFlightOut(s) == {} && InFlightIn(s) == {} && Elements([]) == {};
    assert forall p: PoolId :: In(map[], p) == {};
  }

  ghost predicate IsRun(states: seq<Net>, steps: seq<Step>) {
    && |states| == |steps| + 1 && states[0] == Start()
    && forall i :: 0 <= i < |steps| ==> Enabled(states[i], steps[i]) && states[i + 1] == Apply(states[i], steps[i])
  }

  /** Every first receive is timely. */
  ghost predicate TimelyRun(states: seq<Net>, steps: seq<Step>)
    requires IsRun(states, steps)
  {
    forall i :: 0 <= i < |steps| ==> Enabled(states[i], steps[i]) && Timely(states[i], steps[i])
  }

  lemma {:induction false} RunInv(states: seq<Net>, steps: seq<Step>, i: nat)
    requires IsRun(states, steps) && TimelyRun(states, steps) && i <= |steps|
    ensures Inv(states[i])
    decreases i
  {
    hide Inv, Enabled, Apply, Timely;
    if i == 0 {
      StartInv();
    } else {
      RunInv(states, steps, i - 1);
      assert Enabled(states[i - 1], steps[i - 1]);
      StepInv(states[i - 1], steps[i - 1]);
    }
  }

  /** The invariant holds throughout a run exactly if every first receive is timely. */
  lemma RunInvIff(states: seq<Net>, steps: seq<Step>)
    requires IsRun(states, steps)
    ensures (forall i :: 0 <= i <= |steps| ==> Inv(states[i])) <==> TimelyRun(states, steps)
  {
    hide Inv, Enabled, Apply, Timely;
    if TimelyRun(states, steps) {
      forall i | 0 <= i <= |steps| ensures Inv(states[i]) { RunInv(states, steps, i); }
    } else {
      var i :| 0 <= i < |steps| && !(Enabled(states[i], steps[i]) && Timely(states[i], steps[i]));
      if Inv(states[i]) {
        StepInv(states[i], steps[i]);
        assert !Inv(states[i + 1]);
      }
    }
  }

  // ----- programs that wait for the first receive

  /** The program calls nothing on a connection while a worker is about to post its first receive. */
  predicate Patient(s: Net, a: Step) {
    a.Disconnect? || a.Send? ==> a.c !in s.starting
  }

  ghost predicate PatientRun(states: seq<Net>, steps: seq<Step>) {
    |states| == |steps| + 1 && forall i :: 0 <= i < |steps| ==> Patient(states[i], steps[i])
  }

  /** A connection between OnConnection and its first receive is up, with nothing in flight. */
  ghost predicate Calm(s: Net) {
    forall c :: c in s.starting ==>
      && c in s.conns && s.starting[c] == 1
      && s.conns[c].stage.Live? && s.conns[c].connected == 1 && s.conns[c].iorefs == 0
  }

  lemma CalmStep(s: Net, a: Step)
    requires Inv(s) && Calm(s) && Enabled(s, a) && Patient(s, a)
    ensures Timely(s, a) && Calm(Apply(s, a))
  {
    hide OutState, Accounts, Owned, InputHome, InFlightOut, InFlightIn, Flying, Pop, Push;
    var s' := Apply(s, a);
    forall c | c in s'.starting
      ensures c in s'.conns && s'.starting[c] == 1
      ensures s'.conns[c].stage.Live? && s'.conns[c].connected == 1 && s'.conns[c].iorefs == 0
    {
      CalmAt(s, a, c);
    }
  }

  lemma CalmAt(s: Net, a: Step, c: ConnId)
    requires Inv(s) && Calm(s) && Enabled(s, a) && Patient(s, a) && c in Apply(s, a).starting
    ensures var s' := Apply(s, a);
            && c in s'.conns && s'.starting[c] == 1
            && s'.conns[c].stage.Live? && s'.conns[c].connected == 1 && s'.conns[c].iorefs == 0
  {
    hide OutState, Accounts, Owned, InputHome, InFlightOut, InFlightIn, Flying, Pop, Push;
    if c in s.conns {
      ConnAt(s, c);
      if s.conns[c].iorefs == 0 { NoRefs(s.conns[c]); }
    }
  }

  lemma StartCalm()
    ensures Calm(Start())
  {
  }

  lemma {:induction false} PatientInv(states: seq<Net>, steps: seq<Step>, i: nat)
    requires IsRun(states, steps) && PatientRun(states, steps) && i <= |steps|
    ensures Inv(states[i]) && Calm(states[i])
    decreases i
  {
    hide Inv, Enabled, Apply, Timely, Calm, Patient;
    if i == 0 {
      StartInv();
      StartCalm();
    } else {
      PatientInv(states, steps, i - 1);
      assert Enabled(states[i - 1], steps[i - 1]);
      CalmStep(states[i - 1], steps[i - 1]);
      StepInv(states[i - 1], steps[i - 1]);
    }
  }

  /** So whatever the sockets do, the runs of such a program are timely. */
  lemma PatientTimely(states: seq<Net>, steps: seq<Step>)
    requires IsRun(states, steps) && PatientRun(states, steps)
    ensures TimelyRun(states, steps)
  {
    hide Inv, Enabled, Apply, Timely, Calm, Patient;
    forall i | 0 <= i < |steps| ensures Enabled(states[i], steps[i]) && Timely(states[i], steps[i]) {
      PatientInv(states, steps, i);
      CalmStep(states[i], steps[i]);
    }
  }

  /** The outcomes that are bad for a program that is not patient. */
  function Worst(a: Step): Step {
    match a
    case Disconnect(c, _) => Disconnect(c, Success)
    case Send(c, x, len, _, _) => Send(c, x, len, Failure, Success)
    case _ => a
  }

  /** And patience is needed: whenever a patient run reaches a state in which the program could
      call something on a connection too early, other than a send that goes nowhere because the
      packet is too large, then after that call the sockets and workers can break the connection. */
  lemma ImpatientBreaks(states: seq<Net>, steps: seq<Step>, a: Step, spare: Ctx) returns (late: seq<Net>)
    requires IsRun(states, steps) && PatientRun(states, steps)
    requires Enabled(states[|steps|], a) && !Patient(states[|steps|], a) && Unused(states[|steps|], spare)
    requires a.Send? ==> PEER_PACKET_HEAD + a.len <= MAX_OUTPUT_BUFFER
    ensures IsRun(states + late, steps + [Worst(a), DisconnectDone(a.c), FirstRecv(a.c, spare, Success, Success)])
    ensures a.c in late[2].conns && late[2].conns[a.c].stage.Idle? && late[2].conns[a.c].iorefs == 1 && !Inv(late[2])
  {
    hide Inv, Calm, Enabled, Apply;
    var s := states[|steps|];
    PatientInv(states, steps, |steps|);
    Dropped(s, a, spare);
    var b, e, f := Worst(a), DisconnectDone(a.c), FirstRecv(a.c, spare, Success, Success);
    var s1 := Apply(s, b);
    var s2 := Apply(s1, e);
    var s3 := Apply(s2, f);
    late := [s1, s2, s3];
    Extended(states, steps, s1, b);
    Extended(states + [s1], steps + [b], s2, e);
    Extended(states + [s1] + [s2], steps + [b] + [e], s3, f);
    assert states + late == states + [s1] + [s2] + [s3];
    assert steps + [b, e, f] == steps + [b] + [e] + [f];
  }

  /** The call ends in a disconnect, and the disconnect completes at once. */
  lemma Dropped(s: Net, a: Step, spare: Ctx)
    requires Inv(s) && Calm(s) && Enabled(s, a) && !Patient(s, a) && Unused(s, spare)
    requires a.Send? ==> PEER_PACKET_HEAD + a.len <= MAX_OUTPUT_BUFFER
    ensures Enabled(s, Worst(a))
    ensures var s1 := Apply(s, Worst(a)); Enabled(s1, DisconnectDone(a.c))
    ensures var s2 := Apply(Apply(s, Worst(a)), DisconnectDone(a.c));
            var f := FirstRecv(a.c, spare, Success, Success);
            && a.c in s2.conns && s2.conns[a.c].stage.Idle? && Enabled(s2, f)
            && a.c in Apply(s2, f).conns && Apply(s2, f).conns[a.c].stage.Idle? && Apply(s2, f).conns[a.c].iorefs == 1
            && !Inv(Apply(s2, f))
  {
    hide Owned, InputHome, OutState, Accounts, InFlightOut, InFlightIn, Flying, Pop, Inv, ConnsOk;
    assert ConnOk(s.conns[a.c]) by { InvConn(s, a.c); }
    assert Enabled(s, Worst(a));
    var s1 := Apply(s, Worst(a));
    StepInv(s, Worst(a));
    assert s1.conns[a.c].disc == 1 && s1.conns[a.c].iorefs == 0 && s1.conns[a.c].connected == 0;
    StepInv(s1, DisconnectDone(a.c));
    var s2 := Apply(s1, DisconnectDone(a.c));
    LateRecv(s2, FirstRecv(a.c, spare, Success, Success));
  }

  lemma InvConn(s: Net, c: ConnId)
    requires Inv(s) && c in s.conns
    ensures ConnOk(s.conns[c])
  {
    hide OutState, Accounts, Owned, InputHome, InFlightOut, InFlightIn, ConnOk;
  }

  lemma Extended(states: seq<Net>, steps: seq<Step>, s: Net, a: Step)
    requires IsRun(states, steps) && Enabled(states[|steps|], a) && s == Apply(states[|steps|], a)
    ensures IsRun(states + [s], steps + [a])
  {
    hide Enabled, Apply;
  }

  /** In every state of every run iorefs_ counts what is in flight, connected_ and the queued
      disconnects never exceed one, OnDisconnect ran at most once, and no Close was refused. */
  lemma RunConnections(states: seq<Net>, steps: seq<Step>, i: nat, c: ConnId)
    requires IsRun(states, steps) && TimelyRun(states, steps) && i <= |steps| && c in states[i].conns
    ensures var k := states[i].conns[c];
            && k.iorefs == |k.sends| + |k.recvs| + |k.busy| && k.connected + k.disc <= 1 && k.ended <= 1 && !k.refused
  {
    hide Enabled, Apply, Owned, InputHome, OutState, Accounts;
    RunInv(states, steps, i);
  }

  /** OnDisconnect runs only when nothing is in flight and the connection is down, and the
      Close that follows succeeds. */
  lemma RunDisconnect(states: seq<Net>, steps: seq<Step>, i: nat)
    requires IsRun(states, steps) && TimelyRun(states, steps) && i < |steps| && steps[i].DisconnectDone?
    ensures var c := steps[i].c;
            && c in states[i].conns && c in states[i + 1].conns
            && var k, k' := states[i].conns[c], states[i + 1].conns[c];
               && (k'.ended > k.ended <==> k.iorefs == 0)
               && (k.iorefs == 0 ==> k.connected == 0 && k.sends == {} && k.recvs == {} && k.busy == {}
                                     && k'.stage.Idle?)
  {
    hide Owned, InputHome, OutState, Accounts;
    RunInv(states, steps, i);
    assert Enabled(states[i], steps[i]) && states[i + 1] == Apply(states[i], steps[i]);
    var k := states[i].conns[steps[i].c];
    if k.iorefs == 0 { NoRefs(k); }
  }

  /** A run up to OnConnection, with a stream at hand. */
  lemma Told() returns (states: seq<Net>, steps: seq<Step>)
    ensures IsRun(states, steps) && steps == [NewStream(0, 0), Open(1, IOREFMAX, 0), Announce(1)]
    ensures var s := states[3];
            1 in s.conns && s.conns[1].stage.Live? && 1 in s.starting && s.held == {0} && Unused(s, 7)
  {
    var s0 := Start();
    var s1 := Apply(s0, NewStream(0, 0));
    var s2 := Apply(s1, Open(1, IOREFMAX, 0));
    var s3 := Apply(s2, Announce(1));
    states, steps := [s0, s1, s2, s3], [NewStream(0, 0), Open(1, IOREFMAX, 0), Announce(1)];
  }

  /** A program that sends from OnConnection, and a socket that refuses: the disconnect completes
      before the first receive, which is then posted on a connection that is already free. */
  lemma EarlySend() returns (states: seq<Net>, steps: seq<Step>)
    ensures IsRun(states, steps) && (forall i :: 0 <= i < |steps| ==> !steps[i].Disconnect?)
    ensures !TimelyRun(states, steps) && !Inv(states[|steps|])
  {
    hide Inv, Apply, Timely;
    var prefix, done := Told();
    var late := ImpatientBreaks(prefix, done, Send(1, 0, 10, Failure, Success), 7);
    states := prefix + late;
    steps := done + [Send(1, 0, 10, Failure, Success), DisconnectDone(1), FirstRecv(1, 7, Success, Success)];
    assert states[|steps|] == late[2];
    RunInvIff(states, steps);
  }
}
