/** Packets over a byte stream: values are written into a stream buffer, framed with a header,
    cut into chunks of any size by the network, put together again in a fixed buffer, and read
    back. */
module Reassembly {
  import opened Common

  type uint16 = x: int | 0 <= x < 0x1_0000

  const PACKET_HEAD: nat := 4
  const MAX_BUFFER: nat := 1024

  datatype Packet = Packet(typeId: uint16, body: Bytes)

  function Half(x: uint16): (b: Bytes)
    ensures |b| == 2
  {
    [x % 256, x / 256]
  }

  function HalfOf(b: Bytes, i: nat): (x: uint16)
    requires i + 2 <= |b|
  {
    b[i] as int + 256 * b[i + 1] as int
  }

  predicate Sendable(p: Packet) {
    |p.body| < 0x1_0000
  }

  function FullLength(p: Packet): nat {
    |p.body| + PACKET_HEAD
  }

  /** SendData: the bytes of a packet. */
  function Frame(p: Packet): Bytes
    requires Sendable(p)
  {
    Half(p.typeId) + Half(|p.body|) + p.body
  }

  predicate AllSendable(ps: seq<Packet>) {
    forall i :: 0 <= i < |ps| ==> Sendable(ps[i])
  }

  function Frames(ps: seq<Packet>): Bytes
    requires AllSendable(ps)
  {
    if ps == [] then [] else Frame(ps[0]) + Frames(ps[1..])
  }

  lemma FrameHead(p: Packet)
    requires Sendable(p)
    ensures |Frame(p)| == FullLength(p) && HalfOf(Frame(p), 0) == p.typeId && HalfOf(Frame(p), 2) == |p.body|
            && Frame(p)[PACKET_HEAD..] == p.body
  {
  }

  /** On the wire: type and length of the body, low bytes first, then the body. */
  lemma FrameSample()
    ensures Frame(Packet(0x0102, [9, 8, 7])) == [0x02, 0x01, 3, 0, 9, 8, 7]
  {
    var p := Packet(0x0102, [9, 8, 7]);
    assert Half(p.typeId) == [0x02, 0x01] && Half(|p.body|) == [3, 0];
  }

  lemma {:induction false} FramesSnoc(ps: seq<Packet>, p: Packet)
    requires AllSendable(ps) && Sendable(p)
    ensures AllSendable(ps + [p]) && Frames(ps + [p]) == Frames(ps) + Frame(p)
    decreases |ps|
  {
    hide Frame;
    if ps == [] {
      assert ([] + [p])[1..] == [];
    } else {
      FramesSnoc(ps[1..], p);
      assert (ps + [p])[1..] == ps[1..] + [p];
    }
  }

  lemma {:induction false} FramesSplit(ps: seq<Packet>, n: nat)
    requires AllSendable(ps) && n <= |ps|
    ensures Frames(ps) == Frames(ps[..n]) + Frames(ps[n..])
    decreases n
  {
    hide Frame;
    if n == 0 {
      assert ps[..0] == [] && ps[0..] == ps;
    } else {
      FramesSplit(ps[1..], n - 1);
      assert ps[1..][..n - 1] == ps[..n][1..] && ps[1..][n - 1..] == ps[n..];
    }
  }

  /** No packet is longer than the bound. */
  predicate Bounded(ps: seq<Packet>, bound: nat) {
    forall i :: 0 <= i < |ps| ==> FullLength(ps[i]) <= bound
  }

  /** What is left in the buffer is less than the next packet. */
  predicate Incomplete(rest: Bytes, ps: seq<Packet>) {
    if ps == [] then rest == [] else |rest| < FullLength(ps[0])
  }

  /** The condition under which the copy in the else-branch stays within the buffer: at most
      bound - 1 bytes are left over when a chunk of up to chunk bytes arrives. */
  predicate Fits(size: nat, chunk: nat, bound: nat) {
    2 * (bound - 1) + chunk <= 2 * size && PACKET_HEAD <= bound <= size && chunk <= size
  }

  /** The number of bytes OnData copies for a chunk of len bytes when used are in the buffer. */
  function CopyLength(size: nat, used: nat, len: nat): int {
    if used + len <= size then len else used + len - size
  }

  /** The copy stays within the buffer for every leftover and chunk exactly if Fits holds. */
  lemma FitsExactly(size: nat, chunk: nat, bound: nat)
    requires PACKET_HEAD <= bound <= size && chunk <= size
    ensures Fits(size, chunk, bound) <==> forall used: nat, len: nat :: used < bound && len <= chunk ==>
            used + CopyLength(size, used, len) <= size
  {
    if !Fits(size, chunk, bound) {
      assert bound - 1 + CopyLength(size, bound - 1, chunk) > size;
    }
  }

  lemma DefaultBound()
    ensures forall bound: nat :: PACKET_HEAD <= bound <= MAX_BUFFER ==>
            (Fits(MAX_BUFFER, MAX_BUFFER, bound) <==> bound <= 513)
  {
  }

  /** handled and the bytes that wait are the beginning of what is sent. */
  predicate Tracks(sent: seq<Packet>, handled: seq<Packet>, pending: Bytes) {
    && AllSendable(sent) && AllSendable(handled) && |handled| <= |sent| && handled == sent[..|handled|]
    && Frames(handled) + pending <= Frames(sent)
  }

  // ----- the receiver

  class Session {
    const size: nat
    const buf: array<byte>          // m_RecvBuf
    var used: nat                   // m_iRecvBufLen
    var handled: seq<Packet>        // what _HandlePacket was given
    ghost var received: Bytes       // everything that arrived

    constructor (size: nat)
      ensures this.size == size && Valid() && used == 0 && handled == [] && received == [] && fresh(buf)
    {
      this.size := size;
      buf := new byte[size](_ => 0);
      used, handled, received := 0, [], [];
    }

    ghost predicate Valid()
      reads this
    {
      buf.Length == size && used <= size && AllSendable(handled)
    }

    ghost function Pending(): Bytes
      requires Valid()
      reads this, buf
    {
      buf[..used]
    }

    /** Everything received so far has been handled or waits in the buffer; it is part of what
        the sender sends. */
    ghost predicate Following(sent: seq<Packet>)
      reads this, buf
    {
      Valid() && |handled| <= |sent| && Tracks(sent, handled, Pending()) && received == Frames(handled) + Pending()
    }

    method Append(bytes: Bytes)
      requires Valid() && used + |bytes| <= size
      modifies this, buf
      ensures Valid() && used == old(used) + |bytes| && Pending() == old(Pending()) + bytes
      ensures handled == old(handled) && received == old(received) + bytes
    {
      var i := 0;
      while i < |bytes|
        invariant 0 <= i <= |bytes| && Valid() && used == old(used) && handled == old(handled)
                  && received == old(received)
        invariant buf[..used] == old(buf[..used]) && buf[used..used + i] == bytes[..i]
      {
        buf[used + i] := bytes[i];
        assert buf[used..used + i + 1] == buf[used..used + i] + [bytes[i]];
        i := i + 1;
      }
      used := used + |bytes|;
      received := received + bytes;
      assert buf[..used] == old(buf[..used]) + bytes;
    }

    /** memmove of what follows the first n bytes. */
    method Shift(n: nat)
      requires Valid() && n <= used
      modifies this, buf
      ensures Valid() && used == old(used) - n && Pending() == old(Pending())[n..] && handled == old(handled)
              && received == old(received)
    {
      var i := 0;
      while i < used - n
        invariant 0 <= i <= used - n && Valid() && used == old(used) && handled == old(handled)
                  && received == old(received)
        invariant forall j :: 0 <= j < i ==> buf[j] == old(buf[j + n])
        invariant forall j :: i <= j < used ==> buf[j] == old(buf[j])
      {
        buf[i] := buf[i + n];
        i := i + 1;
      }
      used := used - n;
      assert Pending() == old(Pending())[n..];
    }

    /** The header at the front of the buffer. */
    method Header() returns (typeId: uint16, len: uint16)
      requires Valid() && used >= PACKET_HEAD
      ensures typeId == HalfOf(Pending(), 0) && len == HalfOf(Pending(), 2)
    {
      typeId, len := buf[0] as int + 256 * buf[1] as int, buf[2] as int + 256 * buf[3] as int;
    }

    /** Step 2 and 3: packets are taken from the buffer while it holds a whole one. */
    method TakePackets(ghost sent: seq<Packet>, ghost bound: nat)
      requires Following(sent) && Bounded(sent, bound) && bound < 0x1_0000
      modifies this, buf
      ensures Following(sent) && received == old(received) && old(handled) <= handled
              && Incomplete(Pending(), sent[|handled|..])
    {
      hide Tracks, Frames;
      while used >= PACKET_HEAD
        invariant Following(sent) && received == old(received) && old(handled) <= handled
        decreases |sent| - |handled|
      {
        NextPacket(sent, handled, Pending());
        var typeId, len := Header();
        ghost var p := sent[|handled|];
        assert FullLength(p) <= bound;
        var full := (len + PACKET_HEAD) % 0x1_0000;
        if used < full { return; }
        WholePacket(sent, handled, Pending());
        var body := buf[PACKET_HEAD..full];
        assert body == Pending()[PACKET_HEAD..full];
        assert Packet(typeId, body) == p;
        handled := handled + [Packet(typeId, body)];
        Shift(full);
      }
      FewBytes(sent, handled, Pending());
    }

    /** OnData: however the bytes are cut into chunks, exactly the packets that are complete
        have been handled, in order, and no byte is lost. */
    method OnData(data: Bytes, ghost sent: seq<Packet>, ghost chunk: nat, ghost bound: nat)
      requires Following(sent) && Incomplete(Pending(), sent[|handled|..]) && Bounded(sent, bound) && bound < 0x1_0000
      requires used + |data| <= size || (|data| <= chunk && Fits(size, chunk, bound))
      requires received + data <= Frames(sent)
      modifies this, buf
      ensures Following(sent) && received == old(received) + data && old(handled) <= handled
              && Incomplete(Pending(), sent[|handled|..])
    {
      hide Frames, AllSendable;
      var rest := data;
      var more := true;
      while more
        invariant Following(sent) && received + rest == old(received) + data && |rest| <= |data|
        invariant used + |rest| <= size || (|data| <= chunk && Fits(size, chunk, bound)) || rest == []
        invariant old(handled) <= handled && Incomplete(Pending(), sent[|handled|..]) && (!more ==> rest == [])
        decreases |rest|, more
      {
        if Fits(size, chunk, bound) { LeftOver(sent, handled, Pending(), bound); }
        var n := if used + |rest| <= size then |rest| else used + |rest| - size;
        assert rest == rest[..n] + rest[n..];
        Prefix(received, rest, n, Frames(sent));
        ghost var before := received;
        Append(rest[..n]);
        Appended(handled, old(received), before, Pending(), rest[..n]);
        rest := rest[n..];
        TakePackets(sent, bound);
        more := rest != [];
      }
      assert received == old(received) + data;
    }
  }

  // ----- lemmas for the receiver

  /** The bytes that wait are the beginning of the packets still to come. */
  lemma RestPrefix(sent: seq<Packet>, handled: seq<Packet>, pending: Bytes)
    requires Tracks(sent, handled, pending)
    ensures AllSendable(sent[|handled|..]) && pending <= Frames(sent[|handled|..])
  {
    hide Frames;
    FramesSplit(sent, |handled|);
    var a, b := Frames(handled), Frames(sent[|handled|..]);
    assert forall i :: 0 <= i < |pending| ==> pending[i] == (a + pending)[|a| + i] == (a + b)[|a| + i] == b[i];
  }

  lemma HeadPrefix(ps: seq<Packet>, pending: Bytes)
    requires AllSendable(ps) && pending <= Frames(ps) && pending != []
    ensures ps != [] && |Frame(ps[0])| == FullLength(ps[0])
    ensures forall i :: 0 <= i < |pending| && i < FullLength(ps[0]) ==> pending[i] == Frame(ps[0])[i]
  {
    FrameHead(ps[0]);
  }

  lemma NextPacket(sent: seq<Packet>, handled: seq<Packet>, pending: Bytes)
    requires Tracks(sent, handled, pending)
    requires |pending| >= PACKET_HEAD
    ensures |handled| < |sent| && HalfOf(pending, 0) == sent[|handled|].typeId
            && HalfOf(pending, 2) == |sent[|handled|].body|
  {
    hide Frames, Frame;
    RestPrefix(sent, handled, pending);
    var ps := sent[|handled|..];
    HeadPrefix(ps, pending);
    FrameHead(ps[0]);
    var f := Frame(ps[0]);
    assert pending[0] == f[0] && pending[1] == f[1] && pending[2] == f[2] && pending[3] == f[3];
  }

  lemma FrontPacket(ps: seq<Packet>, pending: Bytes)
    requires AllSendable(ps) && ps != [] && pending <= Frames(ps) && |pending| >= FullLength(ps[0])
    ensures pending[..FullLength(ps[0])] == Frame(ps[0]) && pending[PACKET_HEAD..FullLength(ps[0])] == ps[0].body
  {
    hide Frames, Frame;
    var n := FullLength(ps[0]);
    HeadPrefix(ps, pending);
    FrameHead(ps[0]);
    assert pending[..n] == Frame(ps[0]);
    assert pending[PACKET_HEAD..n] == pending[..n][PACKET_HEAD..];
  }

  lemma WholePacket(sent: seq<Packet>, handled: seq<Packet>, pending: Bytes)
    requires Tracks(sent, handled, pending) && |handled| < |sent|
    requires |pending| >= FullLength(sent[|handled|])
    ensures var p := sent[|handled|];
            var n := FullLength(p);
            && pending[PACKET_HEAD..n] == p.body && Tracks(sent, handled + [p], pending[n..])
            && AllSendable(handled + [p]) && AllSendable(handled)
               && Frames(handled) + pending == Frames(handled + [p]) + pending[n..]
  {
    hide Frames, Frame, AllSendable, Sendable;
    RestPrefix(sent, handled, pending);
    var p := sent[|handled|];
    var n := FullLength(p);
    SendableAt(sent, |handled|);
    assert sent[|handled|..][0] == p;
    FrontPacket(sent[|handled|..], pending);
    FramesSnoc(handled, p);
    TakeNext(sent, |handled|);
    Regroup(Frames(handled), Frame(p), pending, n);
  }

  lemma SendableAt(ps: seq<Packet>, i: nat)
    requires AllSendable(ps) && i < |ps|
    ensures Sendable(ps[i])
  {
  }

  lemma TakeNext(ps: seq<Packet>, i: nat)
    requires i < |ps|
    ensures ps[..i] + [ps[i]] == ps[..i + 1]
  {
  }

  lemma Regroup(a: Bytes, f: Bytes, pending: Bytes, n: nat)
    requires n <= |pending| && pending[..n] == f
    ensures a + pending == a + f + pending[n..]
  {
    assert pending == pending[..n] + pending[n..];
  }

  lemma FewBytes(sent: seq<Packet>, handled: seq<Packet>, pending: Bytes)
    requires Tracks(sent, handled, pending)
    requires |pending| < PACKET_HEAD
    ensures Incomplete(pending, sent[|handled|..])
  {
    RestPrefix(sent, handled, pending);
  }

  lemma LeftOver(sent: seq<Packet>, handled: seq<Packet>, pending: Bytes, bound: nat)
    requires |handled| <= |sent| && Bounded(sent, bound) && Incomplete(pending, sent[|handled|..]) && bound > 0
    ensures |pending| <= bound - 1
  {
    var ps := sent[|handled|..];
    if ps != [] { assert ps[0] == sent[|handled|]; }
  }

  lemma Prefix(received: Bytes, rest: Bytes, n: nat, all: Bytes)
    requires n <= |rest| && received + rest <= all
    ensures received + rest[..n] <= all && received + rest[..n] + rest[n..] == received + rest
  {
    assert received + rest[..n] + rest[n..] == received + rest;
    assert received + rest[..n] <= received + rest;
  }

  lemma Appended(handled: seq<Packet>, old0: Bytes, before: Bytes, pending: Bytes, bytes: Bytes)
    requires AllSendable(handled) && |pending| >= |bytes|
             && before == Frames(handled) + pending[..|pending| - |bytes|] && pending[|pending| - |bytes|..] == bytes
    ensures before + bytes == Frames(handled) + pending
  {
    assert pending == pending[..|pending| - |bytes|] + pending[|pending| - |bytes|..];
  }

  /** When everything that was sent has arrived, everything has been handled. */
  lemma AllHandled(sent: seq<Packet>, handled: seq<Packet>, pending: Bytes)
    requires Tracks(sent, handled, pending) && Frames(handled) + pending == Frames(sent)
             && Incomplete(pending, sent[|handled|..])
    ensures handled == sent && pending == []
  {
    hide Frames, Frame;
    FramesSplit(sent, |handled|);
    var a, rest := Frames(handled), sent[|handled|..];
    assert |pending| == |Frames(rest)|;
    if rest != [] { LongEnough(rest); } else { EmptyFrames(); }
  }

  lemma LongEnough(ps: seq<Packet>)
    requires AllSendable(ps) && ps != []
    ensures |Frames(ps)| >= FullLength(ps[0])
  {
    FrameHead(ps[0]);
  }

  lemma EmptyFrames()
    ensures Frames([]) == []
  {
  }

  // ----- streams of values

  function Concat(vs: seq<Bytes>): Bytes {
    if vs == [] then [] else vs[0] + Concat(vs[1..])
  }

  lemma {:induction false} ConcatSnoc(vs: seq<Bytes>, v: Bytes)
    ensures Concat(vs + [v]) == Concat(vs) + v
    decreases |vs|
  {
    if vs == [] {
      assert ([] + [v])[1..] == [];
    } else {
      ConcatSnoc(vs[1..], v);
      assert (vs + [v])[1..] == vs[1..] + [v];
    }
  }

  lemma {:induction false} ConcatAt(vs: seq<Bytes>, i: nat)
    requires i < |vs|
    ensures Concat(vs[..i]) + vs[i] == Concat(vs[..i + 1]) && Concat(vs[..i + 1]) <= Concat(vs)
    decreases i
  {
    assert vs[..i + 1] == vs[..i] + [vs[i]];
    ConcatSnoc(vs[..i], vs[i]);
    ConcatSplit(vs, i + 1);
  }

  lemma {:induction false} ConcatSplit(vs: seq<Bytes>, i: nat)
    requires i <= |vs|
    ensures Concat(vs) == Concat(vs[..i]) + Concat(vs[i..])
    decreases i
  {
    if i == 0 {
      assert vs[..0] == [] && vs[0..] == vs;
    } else {
      ConcatSplit(vs[1..], i - 1);
      assert vs[1..][..i - 1] == vs[..i][1..] && vs[1..][i - 1..] == vs[i..];
    }
  }

  class OutputStream {
    const buffer: array<byte>      // m_DataBuffer
    var length: nat                // m_iDataLength

    constructor ()
      ensures Valid() && Content() == [] && fresh(buffer)
    {
      buffer := new byte[MAX_BUFFER](_ => 0);
      length := 0;
    }

    ghost predicate Valid()
      reads this
    {
      buffer.Length == MAX_BUFFER && length <= MAX_BUFFER
    }

    ghost function Content(): Bytes
      requires Valid()
      reads this, buffer
    {
      buffer[..length]
    }

    /** Serialize: the image of a value is appended if it fits. */
    method Serialize(value: Bytes) returns (ok: bool)
      requires Valid()
      modifies this, buffer
      ensures Valid() && (ok <==> old(length) + |value| <= MAX_BUFFER)
      ensures Content() == if ok then old(Content()) + value else old(Content())
    {
      if length + |value| > MAX_BUFFER { return false; }
      var i := 0;
      while i < |value|
        invariant 0 <= i <= |value| && Valid() && length == old(length)
        invariant buffer[..length] == old(buffer[..length]) && buffer[length..length + i] == value[..i]
      {
        buffer[length + i] := value[i];
        assert buffer[length..length + i + 1] == buffer[length..length + i] + [value[i]];
        i := i + 1;
      }
      length := length + |value|;
      assert buffer[..length] == old(buffer[..length]) + value;
      ok := true;
    }
  }

  class InputStream {
    const data: Bytes
    var index: nat

    constructor (data: Bytes)
      ensures this.data == data && index == 0
    {
      this.data, index := data, 0;
    }

    /** Serialize: the next n bytes, if there are so many. */
    method Serialize(n: nat) returns (ok: bool, value: Bytes)
      requires index <= |data|
      modifies `index
      ensures index <= |data| && (ok <==> old(index) + n <= |data|)
      ensures ok ==> value == data[old(index)..old(index) + n] && index == old(index) + n
      ensures !ok ==> index == old(index)
    {
      if |data| - index >= n {
        ok, value, index := true, data[index..index + n], index + n;
      } else {
        ok, value := false, [];
      }
    }
  }

  // ----- from values to values

  datatype Message = Message(typeId: uint16, values: seq<Bytes>)

  function PacketOf(m: Message): Packet {
    Packet(m.typeId, Concat(m.values))
  }

  function PacketsOf(ms: seq<Message>): (ps: seq<Packet>)
    ensures |ps| == |ms| && forall i :: 0 <= i < |ms| ==> ps[i] == PacketOf(ms[i])
  {
    seq(|ms|, i requires 0 <= i < |ms| => PacketOf(ms[i]))
  }

  /** Writing the values of a message and framing them. */
  method SendData(m: Message) returns (ok: bool, bytes: Bytes)
    ensures ok <==> |Concat(m.values)| <= MAX_BUFFER
    ensures ok ==> Sendable(PacketOf(m)) && bytes == Frame(PacketOf(m))
  {
    var out := new OutputStream();
    bytes := [];
    for i := 0 to |m.values|
      invariant fresh(out) && fresh(out.buffer) && out.Valid() && out.Content() == Concat(m.values[..i])
    {
      ConcatAt(m.values, i);
      ok := out.Serialize(m.values[i]);
      if !ok { return; }
    }
    assert m.values[..|m.values|] == m.values;
    var body := out.buffer[..out.length];
    ok := true;
    bytes := Half(m.typeId) + Half(|body|) + body;
  }

  /** Reading values of the same sizes. */
  method ReadBack(body: Bytes, ghost values: seq<Bytes>, sizes: seq<nat>) returns (got: seq<Bytes>)
    requires body == Concat(values) && |sizes| == |values| && forall i :: 0 <= i < |sizes| ==> sizes[i] == |values[i]|
    ensures got == values
  {
    var stream := new InputStream(body);
    got := [];
    for i := 0 to |sizes|
      invariant fresh(stream) && stream.data == body && got == values[..i] && stream.index == |Concat(values[..i])|
                <= |body|
    {
      ConcatAt(values, i);
      var ok, v := stream.Serialize(sizes[i]);
      Middle(body, Concat(values[..i]), values[i]);
      got := got + [v];
    }
  }

  lemma Middle(body: Bytes, a: Bytes, v: Bytes)
    requires a + v <= body
    ensures |a| + |v| <= |body| && body[|a|..|a| + |v|] == v
  {
    assert body[..|a| + |v|] == a + v;
  }

  function Sum(ns: seq<nat>): nat {
    if ns == [] then 0 else Sum(ns[..|ns| - 1]) + ns[|ns| - 1]
  }

  lemma {:induction false} SumPrefix(ns: seq<nat>, i: nat)
    requires i <= |ns|
    ensures Sum(ns[..i]) <= Sum(ns) && (i == 0 ==> Sum(ns[..i]) == 0)
            && (i < |ns| ==> Sum(ns[..i + 1]) == Sum(ns[..i]) + ns[i] <= Sum(ns))
    decreases |ns| - i
  {
    if i == |ns| {
      assert ns[..i] == ns;
    } else {
      assert ns[..i + 1][..i] == ns[..i];
      SumPrefix(ns, i + 1);
    }
  }

  /** Sending every message of a list. */
  method SendAll(messages: seq<Message>) returns (ok: bool, wire: Bytes)
    requires AllSendable(PacketsOf(messages))
    ensures ok <==> forall i :: 0 <= i < |messages| ==> |Concat(messages[i].values)| <= MAX_BUFFER
    ensures ok ==> wire == Frames(PacketsOf(messages))
  {
    hide Frame, Concat, Sendable;
    wire := [];
    for i := 0 to |messages|
      invariant AllSendable(PacketsOf(messages)[..i]) && wire == Frames(PacketsOf(messages)[..i])
      invariant forall j :: 0 <= j < i ==> |Concat(messages[j].values)| <= MAX_BUFFER
    {
      var sent, bytes := SendData(messages[i]);
      if !sent { return false, wire; }
      FramesSnoc(PacketsOf(messages)[..i], PacketOf(messages[i]));
      TakeNext(PacketsOf(messages), i);
      wire := wire + bytes;
    }
    assert PacketsOf(messages)[..|messages|] == PacketsOf(messages);
    ok := true;
  }

  /** A session that is given what the wire carries, cut as cuts says, dispatches what was sent. */
  method Receive(wire: Bytes, cuts: seq<nat>, size: nat, ghost sent: seq<Packet>, ghost chunk: nat, ghost bound: nat)
    returns (handled: seq<Packet>)
    requires AllSendable(sent) && Bounded(sent, bound) && bound < 0x1_0000 && Fits(size, chunk, bound)
    requires wire == Frames(sent) && Sum(cuts) == |wire| && forall i :: 0 <= i < |cuts| ==> cuts[i] <= chunk
    ensures handled == sent
  {
    hide Frames, Sum, Bounded, AllSendable, Tracks, FullLength, Fits;
    var session := new Session(size);
    Begin(sent);
    var at := 0;
    SumPrefix(cuts, 0);
    for i := 0 to |cuts|
      invariant fresh(session) && fresh(session.buf) && session.size == size && session.Following(sent)
      invariant Incomplete(session.Pending(), sent[|session.handled|..])
      invariant at == Sum(cuts[..i]) <= |wire| && session.received == wire[..at]
    {
      SumPrefix(cuts, i);
      var data := wire[at..at + cuts[i]];
      assert wire[..at] + data == wire[..at + cuts[i]];
      session.OnData(data, sent, chunk, bound);
      at := at + cuts[i];
    }
    assert cuts[..|cuts|] == cuts;
    AllHandled(sent, session.handled, session.Pending());
    handled := session.handled;
  }

  /** What was serialized and sent is read back, in order, however the bytes were cut. */
  method Transmit(messages: seq<Message>, cuts: seq<nat>, sizes: seq<seq<nat>>, size: nat, ghost chunk: nat,
                  ghost bound: nat)
    returns (ok: bool, got: seq<Message>)
    requires AllSendable(PacketsOf(messages)) && Bounded(PacketsOf(messages), bound) && bound < 0x1_0000
    requires Fits(size, chunk, bound)
    requires Sum(cuts) == |Frames(PacketsOf(messages))| && forall i :: 0 <= i < |cuts| ==> cuts[i] <= chunk
    requires |sizes| == |messages| && forall i :: 0 <= i < |sizes| ==> ReadAs(messages[i].values, sizes[i])
    ensures ok <==> forall i :: 0 <= i < |messages| ==> |Concat(messages[i].values)| <= MAX_BUFFER
    ensures ok ==> got == messages
  {
    hide Frames, Concat, Bounded, AllSendable, Fits, Sum;
    var wire;
    got := [];
    ok, wire := SendAll(messages);
    if !ok { return; }
    var handled := Receive(wire, cuts, size, PacketsOf(messages), chunk, bound);
    for i := 0 to |handled|
      invariant handled == PacketsOf(messages) && got == messages[..i]
    {
      var values := ReadBack(handled[i].body, messages[i].values, sizes[i]);
      got := got + [Message(handled[i].typeId, values)];
    }
  }

  /** The reader asks for the sizes that were written. */
  predicate ReadAs(values: seq<Bytes>, sizes: seq<nat>) {
    |sizes| == |values| && forall i :: 0 <= i < |sizes| ==> sizes[i] == |values[i]|
  }

  lemma Begin(sent: seq<Packet>)
    requires AllSendable(sent)
    ensures Tracks(sent, [], []) && Incomplete([], sent[0..]) && Frames([]) + [] == []
  {
    assert sent[..0] == [];
  }

  // ----- beyond the bound

  /** Three packets of the same length. */
  function Three(length: nat): (ps: seq<Packet>)
    requires PACKET_HEAD <= length < 0x1_0000
    ensures |ps| == 3 && AllSendable(ps) && Bounded(ps, length) && forall i :: 0 <= i < 3 ==>
            FullLength(ps[i]) == length
  {
    var p := Packet(0, seq(length - PACKET_HEAD, _ => 0));
    [p, p, p]
  }

  lemma ThreeLength(ps: seq<Packet>, length: nat)
    requires |ps| == 3 && AllSendable(ps) && forall i :: 0 <= i < 3 ==> FullLength(ps[i]) == length
    ensures |Frames(ps)| == 3 * length
  {
    hide Frame;
    FrameHead(ps[0]);
    FrameHead(ps[1]);
    FrameHead(ps[2]);
    var qs := ps[1..];
    var rs := qs[1..];
    assert qs[0] == ps[1] && rs[0] == ps[2] && rs[1..] == [];
    assert |Frames(rs)| == length && |Frames(qs)| == 2 * length;
  }

  /** As long as less than a packet has arrived, all of it waits. */
  lemma NothingHandled(ps: seq<Packet>, handled: seq<Packet>, pending: Bytes, length: nat)
    requires Tracks(ps, handled, pending) && (forall i :: 0 <= i < |ps| ==> FullLength(ps[i]) == length)
    requires |Frames(handled) + pending| < length
    ensures handled == []
  {
    if handled != [] { LongEnough(handled); }
  }

  /** The bound is needed: whenever Fits does not hold, a sender that keeps to it and a network
      that keeps to the size of chunks bring a session, by calls of OnData that are all in bounds,
      into a state where the next chunk is copied beyond the end of the buffer. */
  method Overrun(size: nat, chunk: nat, bound: nat) returns (session: Session, sent: seq<Packet>, data: Bytes)
    requires PACKET_HEAD <= bound <= size && chunk <= size && bound < 0x1_0000 && !Fits(size, chunk, bound)
    ensures fresh(session) && session.size == size && AllSendable(sent) && Bounded(sent, bound)
            && session.Following(sent)
    ensures Incomplete(session.Pending(), sent[|session.handled|..])
    ensures |data| <= chunk && session.received + data <= Frames(sent)
    ensures session.used + CopyLength(size, session.used, |data|) > size
  {
    hide Frames, Bounded, AllSendable, Tracks, FullLength;
    sent := Three(bound);
    ThreeLength(sent, bound);
    var wire := Frames(sent);
    session := new Session(size);
    Begin(sent);
    var at := 0;
    assert chunk > 2;
    while at < bound - 1
      invariant fresh(session) && fresh(session.buf) && session.size == size && session.Following(sent)
      invariant Incomplete(session.Pending(), sent[|session.handled|..])
      invariant 0 <= at <= bound - 1 && session.received == wire[..at] && session.handled == [] && session.used == at
      decreases bound - at
    {
      var n := if chunk <= bound - 1 - at then chunk else bound - 1 - at;
      assert wire[..at] + wire[at..at + n] == wire[..at + n];
      session.OnData(wire[at..at + n], sent, chunk, bound);
      at := at + n;
      NothingHandled(sent, session.handled, session.Pending(), bound);
      EmptyFrames();
    }
    data := wire[at..at + chunk];
    assert wire[..at] + data == wire[..at + chunk];
  }
}
