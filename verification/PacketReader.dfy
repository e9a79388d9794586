/** Reading packets of the GDB Remote Serial Protocol from a socket that cuts the stream where
    it likes. */
module PacketReader {
  import opened Common

  type Byte = b: nat | b < 256

  const DOLLAR: Byte := 36
  const HASH: Byte := 35
  const ACK: Byte := 43

  /** What one receive gives: bytes, none of them when the stub closed the connection, or
      nothing in time. */
  datatype Receive = Chunk(bytes: seq<Byte>) | Silence

  datatype Reply = Payload(bytes: seq<Byte>) | TimedOut | Closed

  /** The bytes received and not yet read, what the socket will give, and what was sent. */
  datatype Session = Session(rx: seq<Byte>, incoming: seq<Receive>, sent: seq<Byte>)

  // ---- The packet at the front of the buffer ----

  function Find(s: seq<Byte>, b: Byte, n: nat): (k: nat)
    requires n <= |s|
    ensures n <= k <= |s|
    ensures k < |s| ==> s[k] == b
    decreases |s| - n
  {
    if n == |s| || s[n] == b then n else Find(s, b, n + 1)
  }

  /** The payload of the first whole packet and what comes after it. */
  function FirstPacket(rx: seq<Byte>): Option<(seq<Byte>, seq<Byte>)> {
    var start := Find(rx, DOLLAR, 0);
    if start == |rx| then None
    else
      var end := Find(rx, HASH, start);
      if end == |rx| || |rx| < end + 3 then None else Some((rx[start + 1..end], rx[end + 3..]))
  }

  /** One read of a packet. */
  function Read(s: Session): (Reply, Session)
    decreases |s.incoming|
  {
    match FirstPacket(s.rx)
    case Some(p) => (Payload(p.0), Session(p.1, s.incoming, s.sent + [ACK]))
    case None =>
      if s.incoming == [] then (TimedOut, s)
      else
        var after := s.incoming[1..];
        match s.incoming[0]
        case Silence => (TimedOut, s.(incoming := after))
        case Chunk(bytes) =>
          if bytes == [] then (Closed, s.(incoming := after))
          else Read(Session(s.rx + bytes, after, s.sent))
  }

  class Gdb {
    var rx: seq<Byte>
    var incoming: seq<Receive>
    var sent: seq<Byte>

    ghost function State(): Session
      reads this
    {
      Session(rx, incoming, sent)
    }

    constructor (socket: seq<Receive>)
      ensures State() == Session([], socket, [])
    {
      rx, incoming, sent := [], socket, [];
    }

    method ReadPacket() returns (reply: Reply)
      modifies this
      ensures (reply, State()) == Read(old(State()))
    {
      while true
        invariant Read(State()) == Read(old(State()))
        decreases |incoming|
      {
        var start := Find(rx, DOLLAR, 0);
        if start < |rx| {
          var end := Find(rx, HASH, start);
          if end < |rx| && |rx| >= end + 3 {
            var payload := rx[start + 1..end];
            rx := rx[end + 3..];
            sent := sent + [ACK];
            return Payload(payload);
          }
        }
        assert FirstPacket(rx) == None;
        if incoming == [] {
          return TimedOut;
        }
        var next := incoming[0];
        incoming := incoming[1..];
        match next
        case Silence => return TimedOut;
        case Chunk(bytes) =>
          if bytes == [] {
            return Closed;
          }
          rx := rx + bytes;
      }
    }
  }

  // ---- Where the chunks are cut does not matter ----

  /** The bytes the socket gives before it falls silent or closes. */
  function Received(incoming: seq<Receive>): seq<Byte> {
    if incoming == [] || incoming[0].Silence? || incoming[0].bytes == [] then []
    else incoming[0].bytes + Received(incoming[1..])
  }

  /** Whether it then closes. */
  predicate ThenCloses(incoming: seq<Receive>) {
    incoming != [] && incoming[0].Chunk? && (incoming[0].bytes == [] || ThenCloses(incoming[1..]))
  }

  /** Everything still to be read. */
  function Pending(s: Session): seq<Byte> {
    s.rx + Received(s.incoming)
  }

  lemma {:induction false} FindAppend(a: seq<Byte>, b: seq<Byte>, x: Byte, n: nat)
    requires n <= |a| && Find(a, x, n) < |a|
    ensures Find(a + b, x, n) == Find(a, x, n)
    decreases |a| - n
  {
    assert (a + b)[n] == a[n];
    if a[n] != x { FindAppend(a, b, x, n + 1); }
  }

  /** More bytes do not change the packet at the front. */
  lemma {:induction false} FirstPacketAppend(a: seq<Byte>, b: seq<Byte>)
    requires FirstPacket(a).Some?
    ensures FirstPacket(a + b) == Some((FirstPacket(a).value.0, FirstPacket(a).value.1 + b))
  {
    FindAppend(a, b, DOLLAR, 0);
    var start := Find(a, DOLLAR, 0);
    FindAppend(a, b, HASH, start);
    var end := Find(a, HASH, start);
    assert (a + b)[start + 1..end] == a[start + 1..end];
    assert (a + b)[end + 3..] == a[end + 3..] + b;
  }

  /** A read gives the first packet of everything still to be read, however it is cut; without a
      whole packet it fails, keeping every byte. */
  lemma {:induction false} ReadIsFirst(s: Session)
    ensures Read(s).0 == (match FirstPacket(Pending(s))
                          case Some(p) => Payload(p.0)
                          case None => if ThenCloses(s.incoming) then Closed else TimedOut)
    ensures match FirstPacket(Pending(s))
            case Some(p) => Pending(Read(s).1) == p.1 && Read(s).1.sent == s.sent + [ACK]
                            && ThenCloses(Read(s).1.incoming) == ThenCloses(s.incoming)
            case None => Read(s).1.rx == Pending(s) && Read(s).1.sent == s.sent
    decreases |s.incoming|
  {
    if FirstPacket(s.rx).Some? {
      FirstPacketAppend(s.rx, Received(s.incoming));
    } else if Received(s.incoming) == [] {
      assert Pending(s) == s.rx;
      if s.incoming != [] { assert s.incoming[0].Silence? || s.incoming[0].bytes == []; }
    } else {
      var bytes := s.incoming[0].bytes;
      var next := Session(s.rx + bytes, s.incoming[1..], s.sent);
      assert Pending(next) == Pending(s);
      ReadIsFirst(next);
      assert Read(s) == Read(next);
    }
  }

  // ---- A stream of packets ----

  /** A packet on the wire, with the acknowledgements before it and its two checksum digits. */
  datatype Packet = Packet(before: seq<Byte>, payload: seq<Byte>, sum: seq<Byte>)

  /** What the protocol asks of a payload, and what comes between packets. */
  predicate IsPacket(p: Packet) {
    DOLLAR !in p.before && HASH !in p.payload && |p.sum| == 2
  }

  function Bytes(p: Packet): seq<Byte> {
    p.before + [DOLLAR] + p.payload + [HASH] + p.sum
  }

  function Wire(packets: seq<Packet>): seq<Byte> {
    if packets == [] then [] else Bytes(packets[0]) + Wire(packets[1..])
  }

  function Payloads(packets: seq<Packet>): seq<Reply> {
    if packets == [] then [] else [Payload(packets[0].payload)] + Payloads(packets[1..])
  }

  lemma {:induction false} FindAfter(a: seq<Byte>, x: Byte, b: seq<Byte>, n: nat)
    requires n <= |a| && forall k {:trigger a[k]} :: n <= k < |a| ==> a[k] != x
    ensures Find(a + [x] + b, x, n) == |a|
    decreases |a| - n
  {
    if n < |a| {
      assert (a + [x] + b)[n] == a[n];
      FindAfter(a, x, b, n + 1);
    } else {
      assert (a + [x] + b)[n] == x;
    }
  }

  /** The first packet of a stream is the one that was sent first. */
  lemma {:induction false} FirstOfStream(p: Packet, rest: seq<Byte>)
    requires IsPacket(p)
    ensures FirstPacket(Bytes(p) + rest) == Some((p.payload, rest))
  {
    var wire := Bytes(p) + rest;
    var start := |p.before|;
    var head := p.before + [DOLLAR] + p.payload;
    assert wire == p.before + [DOLLAR] + (p.payload + [HASH] + p.sum + rest);
    assert wire == head + [HASH] + (p.sum + rest);
    FindAfter(p.before, DOLLAR, p.payload + [HASH] + p.sum + rest, 0);
    forall k {:trigger head[k]} | start <= k < |head| ensures head[k] != HASH {
      if k > start { assert head[k] == p.payload[k - start - 1]; }
    }
    FindAfter(head, HASH, p.sum + rest, start);
    assert wire[start + 1..|head|] == p.payload;
    assert wire[|head| + 3..] == rest;
  }

  /** The replies of that many reads, and the session after them. */
  function Reads(s: Session, n: nat): (seq<Reply>, Session)
    decreases n
  {
    if n == 0 then ([], s)
    else
      var first := Read(s);
      var others := Reads(first.1, n - 1);
      ([first.0] + others.0, others.1)
  }

  function Acks(n: nat): seq<Byte> {
    if n == 0 then [] else [ACK] + Acks(n - 1)
  }

  lemma {:induction false} ReadsOne(s: Session, p: Packet, rest: seq<Byte>)
    requires IsPacket(p) && Pending(s) == Bytes(p) + rest
    ensures Read(s).0 == Payload(p.payload) && Read(s).1.sent == s.sent + [ACK]
    ensures Pending(Read(s).1) == rest && ThenCloses(Read(s).1.incoming) == ThenCloses(s.incoming)
  {
    FirstOfStream(p, rest);
    ReadIsFirst(s);
    hide *;
  }

  /** However a stream of packets is cut into chunks, as many reads as packets give exactly the
      payloads in order, with one acknowledgement each, and leave what comes after them. */
  lemma {:induction false} PayloadsInOrder(s: Session, packets: seq<Packet>, tail: seq<Byte>)
    requires forall i {:trigger packets[i]} :: 0 <= i < |packets| ==> IsPacket(packets[i])
    requires Pending(s) == Wire(packets) + tail
    ensures Reads(s, |packets|).0 == Payloads(packets)
    ensures Pending(Reads(s, |packets|).1) == tail
    ensures Reads(s, |packets|).1.sent == s.sent + Acks(|packets|)
    ensures ThenCloses(Reads(s, |packets|).1.incoming) == ThenCloses(s.incoming)
    decreases |packets|
  {
    if packets == [] {
      assert Wire(packets) + tail == tail;
    } else {
      var rest := Wire(packets[1..]) + tail;
      assert Pending(s) == Bytes(packets[0]) + rest;
      ReadsOne(s, packets[0], rest);
      hide Read, FirstPacket, Received, ThenCloses, Pending, IsPacket, Bytes, Find;
      PayloadsInOrder(Read(s).1, packets[1..], tail);
      assert Reads(s, |packets|).1 == Reads(Read(s).1, |packets| - 1).1;
      assert s.sent + [ACK] + Acks(|packets| - 1) == s.sent + Acks(|packets|);
    }
  }

  /** And the read after them fails, for the reason the socket gives, when what is left holds no
      whole packet. */
  lemma {:induction false} ThenFails(s: Session, packets: seq<Packet>, tail: seq<Byte>)
    requires forall i {:trigger packets[i]} :: 0 <= i < |packets| ==> IsPacket(packets[i])
    requires Pending(s) == Wire(packets) + tail && FirstPacket(tail) == None
    ensures var last := Read(Reads(s, |packets|).1);
            last.0 == (if ThenCloses(s.incoming) then Closed else TimedOut)
            && last.1.rx == tail && last.1.sent == s.sent + Acks(|packets|)
  {
    PayloadsInOrder(s, packets, tail);
    ReadIsFirst(Reads(s, |packets|).1);
    hide *;
  }
}
