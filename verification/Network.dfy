/** What flies between the two ends, base or opt: the configuration of a transfer, DATA
    datagrams sound and damaged, and ACK datagrams. */
module Network {
  import opened Wire
  import opened Chunks
  import BaseSender
  import BaseReceiver

  datatype Config = Config(file: seq<byte>, sendWindow: int, recvWindow: int) {
    /** main's test of the window size, and room for every number in a 32-bit int. */
    predicate Valid() {
      && 1 <= sendWindow
      && NumChunks(file) + sendWindow < TWO31
      && NumChunks(file) + recvWindow < TWO31
    }
  }

  /** A DATA datagram under way, and whether a burst has hit it. */
  datatype Flight = Flight(bytes: seq<byte>, damaged: bool)

  function Sent(p: Packet): Flight {
    Flight(Serialize(p), false)
  }

  /** f carries DATA packet i, its payload perhaps hit by a burst. */
  ghost predicate Carries(file: seq<byte>, i: u32, f: Flight) {
    && |f.bytes| >= HEADER_SIZE
    && f.bytes[..HEADER_SIZE] == HeaderBytes(DataPacket(file, i).header)
    && (f.bytes[HEADER_SIZE..] == Chunk(file, i)
        || (f.damaged && Burst(Chunk(file, i), f.bytes[HEADER_SIZE..])))
  }

  ghost predicate FlightOk(file: seq<byte>, n: u32, f: Flight) {
    exists i: u32 :: i < n && Carries(file, i, f)
  }

  lemma SentCarries(file: seq<byte>, i: u32)
    ensures Carries(file, i, Sent(DataPacket(file, i)))
  {
    hide CrcU32, HeaderBytes;
    ChunkSizes(file, i);
    SerializedParts(DataPacket(file, i));
  }

  lemma SentUndamaged(p: Packet)
    ensures !Sent(p).damaged
  {
  }

  lemma FlightStaysOk(file: seq<byte>, n: u32, m: u32, f: Flight)
    requires FlightOk(file, n, f) && n <= m
    ensures FlightOk(file, m, f)
  {
    hide Carries;
    var i: u32 :| i < n && Carries(file, i, f);
    assert i < m;
  }

  lemma SentIsOk(file: seq<byte>, i: u32, n: u32)
    requires i < n
    ensures FlightOk(file, n, Sent(DataPacket(file, i)))
  {
    hide Carries, Sent, DataPacket;
    SentCarries(file, i);
  }

  lemma FlightNumber(file: seq<byte>, n: u32, f: Flight) returns (i: u32)
    requires FlightOk(file, n, f)
    ensures i < n && Carries(file, i, f)
  {
    hide Carries;
    i :| i < n && Carries(file, i, f);
  }

  lemma BurstKeepsLength(p: seq<byte>, q: seq<byte>)
    requires Burst(p, q)
    ensures |p| == |q|
  {
    assert |Octets(p)| == |Octets(q)|;
  }

  /** What arrives parses to the header that was sent; if it passes the checksum test it
      also has the data that was sent. */
  lemma FlightParses(file: seq<byte>, i: u32, f: Flight) returns (p: Packet)
    requires Carries(file, i, f)
    ensures ParsePacket1(Truncate(f.bytes, RECV_BUFFER)) == Ok(p)
    ensures p.header == DataPacket(file, i).header
    ensures ChecksumOk(p) ==> p.data == Chunk(file, i)
    ensures !f.damaged ==> ChecksumOk(p)
  {
    hide CrcU32, HeaderBytes, Burst;
    var payload := f.bytes[HEADER_SIZE..];
    assert |payload| == |Chunk(file, i)| by {
      if f.damaged && payload != Chunk(file, i) {
        BurstKeepsLength(Chunk(file, i), payload);
      }
    }
    ChunkSizes(file, i);
    var h := DataPacket(file, i).header;
    assert f.bytes == HeaderBytes(h) + payload;
    ParsePacket1Of(h, payload);
    p := Packet(h, payload);
    if payload != Chunk(file, i) {
      BurstFailsChecksum(Chunk(file, i), payload);
    }
  }

  /** There is a datagram that is a START. */
  lemma StartDatagram() returns (d: seq<byte>)
    ensures var p := ParsePacket1(Truncate(d, RECV_BUFFER));
            p.Ok? && p.value.header.typ == START
  {
    hide HeaderBytes;
    var h := Header(START, 0, 0, 0);
    d := HeaderBytes(h) + [];
    ParsePacket1Of(h, []);
  }

  // ---- Replies ----

  function AckBytes(a: u32): (d: seq<byte>)
    ensures IsAckDatagram(d, a)
  {
    var d := HeaderBytes(AckHeader(a)) + Zeros(RECV_BUFFER - HEADER_SIZE);
    assert d[..HEADER_SIZE] == HeaderBytes(AckHeader(a));
    d
  }

  lemma AckNumberUnique(d: seq<byte>, a: u32, b: u32)
    requires IsAckDatagram(d, a) && IsAckDatagram(d, b)
    ensures a == b
  {
    hide ReceiveAckBytes;
    AckRoundTrip(d, a);
    AckRoundTrip(d, b);
  }

  predicate AckIs(r: Result<BaseReceiver.Reaction>, ack: seq<byte>) {
    r.Ok? && r.value.ack.Some? ==> IsAckDatagram(ack, r.value.ack.value)
  }

  lemma TimeoutReply()
    ensures BaseSender.ReceiveAck(BaseSender.NoReply).Ok?
    ensures BaseSender.ReceiveAck(BaseSender.NoReply).value.header.typ == TIMEOUT
  {
    hide CrcU32;
  }

  lemma AckIsNoTimeout(d: seq<byte>, a: u32)
    requires IsAckDatagram(d, a)
    ensures BaseSender.ReceiveAck(BaseSender.Datagram(d)).Ok?
    ensures BaseSender.ReceiveAck(BaseSender.Datagram(d)).value.header.typ == ACK
  {
    hide CrcU32, ReceiveAckBytes;
    AckRoundTrip(d, a);
  }

  /** The datagrams handed to sendto, put on the network. */
  function Flights(sent: seq<seq<byte>>): set<Flight> {
    set d | d in sent :: Flight(d, false)
  }

  lemma FlightsJoin(x: seq<seq<byte>>, y: seq<seq<byte>>)
    ensures Flights(x + y) == Flights(x) + Flights(y)
  {
    assert forall d :: d in x + y <==> d in x || d in y;
  }
}
