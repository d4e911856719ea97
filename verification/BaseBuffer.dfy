/** What the base receiver buffers, and the ACKs it sends, over a connection that started
    with an empty map. */
module BaseBuffer {
  import opened Wire
  import opened Chunks
  import opened BaseSender
  import opened BaseReceiver
  import opened Network
  import opened BaseProtocol

  /** Keys within the window, values the genuine packets. */
  ghost predicate BufferOk(c: Config, r: ReceiverState)
    requires c.Valid()
  {
    0 <= r.nextSeq &&
    forall k | k in r.received ::
      && r.nextSeq <= k < r.nextSeq + c.recvWindow && k < NumChunks(c.file)
      && r.received[k].data == Chunk(c.file, k) && r.received[k].header == DataPacket(c.file, k).header
  }

  lemma TypeOfData(file: seq<byte>, i: u32)
    ensures DataPacket(file, i).header.typ == DATA && DataPacket(file, i).header.seqNum == i
  {
    hide CrcU32;
  }

  lemma DataKeepsBuffer(c: Config, s: System, f: Flight, ack: seq<byte>)
    requires c.Valid() && Inv(c, s) && BufferOk(c, s.receiver) && Enabled(c, s, DeliverData(f, ack))
    ensures BufferOk(c, Apply(c, s, DeliverData(f, ack)).receiver)
  {
    hide SenderOk, Carries, ReceiverOk, CrcU32, ParsePacket1, Chunk, DataPacket, AckOk, IsAckDatagram;
    var i: u32 :| i < s.sender.dataSeqNum && Carries(c.file, i, f);
    SenderBounds(c, s.sender);
    var p := FlightParses(c.file, i, f);
    TypeOfData(c.file, i);
    DataStep(c.recvWindow, s.receiver, p);
    SmallConversions(i);
  }

  /** next_seq never goes down, and an ACK carries next_seq. */
  lemma DataRaises(c: Config, s: System, f: Flight, ack: seq<byte>)
    requires c.Valid() && Inv(c, s) && Enabled(c, s, DeliverData(f, ack))
    ensures s.receiver.nextSeq <= Apply(c, s, DeliverData(f, ack)).receiver.nextSeq
    ensures var r := OnDatagram(c.recvWindow, s.receiver, f.bytes);
            r.Ok? && (r.value.ack.Some? ==> r.value.ack.value == Apply(c, s, DeliverData(f, ack)).receiver.nextSeq)
  {
    hide SenderOk, Carries, OnDatagram, ReceiverOk, AckOk, IsAckDatagram;
    var i: u32 :| i < s.sender.dataSeqNum && Carries(c.file, i, f);
    SenderBounds(c, s.sender);
    DataArrives(c, s.before, s.receiver, i, f);
  }

  lemma StepKeepsBuffer(c: Config, s: System, step: Step)
    requires c.Valid() && Inv(c, s) && BufferOk(c, s.receiver) && Enabled(c, s, step)
    ensures BufferOk(c, Apply(c, s, step).receiver)
  {
    hide SenderOk, BufferOk, Inv, Receive;
    match step
    case Send =>
    case Timeout => HearChangesSender(s, NoReply);
    case DeliverAck(d) => HearChangesSender(s, Datagram(d));
    case DeliverData(f, ack) =>
      DataKeepsBuffer(c, s, f, ack);
      DataRaises(c, s, f, ack);
    case DeliverStart(d) => StartIgnored(c, s, d);
    case LoseData(f) =>
    case LoseAck(d) =>
    case Damage(f, payload) =>
  }

  lemma {:induction false} RunKeepsBuffer(c: Config, s: System, steps: seq<Step>, t: System)
    requires c.Valid() && Inv(c, s) && BufferOk(c, s.receiver) && Reaches(c, s, steps, t)
    ensures BufferOk(c, t.receiver)
    decreases |steps|
  {
    hide Inv, BufferOk, Enabled, Apply;
    if steps != [] {
      StepKeepsBuffer(c, s, steps[0]);
      StepKeepsInv(c, s, steps[0]);
      RunKeepsBuffer(c, Apply(c, s, steps[0]), steps[1..], t);
    }
  }

  lemma Pick<T>(s: set<T>) returns (x: T)
    requires s != {}
    ensures x in s
  {
    x :| x in s;
  }

  lemma {:induction false} SubsetSize<T>(a: set<T>, b: set<T>)
    requires a <= b
    ensures |a| <= |b|
  {
    if a != {} {
      var x :| x in a;
      SubsetSize(a - {x}, b - {x});
    }
  }

  lemma {:induction false} IntervalSize(keys: set<int>, lo: int, n: nat)
    requires forall k | k in keys :: lo <= k < lo + n
    ensures |keys| <= n
    decreases n
  {
    if keys != {} {
      var k := Pick(keys);
      assert lo <= k < lo + n;
      var rest := keys - {lo + n - 1};
      IntervalSize(rest, lo, n - 1);
      assert keys <= rest + {lo + n - 1};
      SubsetSize(keys, rest + {lo + n - 1});
    }
  }

  lemma BufferFits(c: Config, r: ReceiverState)
    requires c.Valid() && 0 <= c.recvWindow && BufferOk(c, r)
    ensures |r.received| <= c.recvWindow
  {
    hide DataPacket, Chunk;
    assert forall k | k in r.received.Keys :: r.nextSeq <= k < r.nextSeq + c.recvWindow;
    IntervalSize(r.received.Keys, r.nextSeq, c.recvWindow);
    assert |r.received.Keys| == |r.received|;
  }

  lemma EmptyIsOk(c: Config, s: System)
    requires c.Valid() && Init(s) && s.receiver.received == map[]
    ensures BufferOk(c, s.receiver)
  {
  }

  /** At every point of every run: genuine packets only, all inside the window, no more of
      them than the window is long, and the numbers acknowledged never fall. */
  lemma BufferBound(c: Config, s0: System, steps: seq<Step>, s: System, more: seq<Step>, t: System)
    requires c.Valid() && 0 <= c.recvWindow
    requires Init(s0) && s0.receiver.received == map[]
    requires Reaches(c, s0, steps, s) && Reaches(c, s, more, t)
    ensures BufferOk(c, s.receiver)
    ensures |s.receiver.received| <= c.recvWindow
    ensures s.receiver.nextSeq <= t.receiver.nextSeq
  {
    hide Inv, Reaches, BufferOk;
    InitInv(c, s0);
    EmptyIsOk(c, s0);
    RunKeepsInv(c, s0, steps, s);
    RunKeepsBuffer(c, s0, steps, s);
    RunKeepsInv(c, s, more, t);
    BufferFits(c, s.receiver);
  }
}
