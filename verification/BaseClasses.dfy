/** The objects of cpp/src/base that are updated in place: Window, Sender with its loop
    sendData, and Receiver with its loop startReceiving. Each method is proved equal to the
    step it performs in BaseSender or BaseReceiver. */
module BaseClasses {
  import opened Wire
  import opened Chunks
  import opened BaseSender
  import R = BaseReceiver

  class Window {
    const windowSize: int
    var packets: seq<Packet>

    // The size as canAddPacket compares it: a negative int converts to a huge unsigned long.
    function Limit(): (l: int)
      ensures 0 <= windowSize ==> l == windowSize
      ensures windowSize < 0 ==> l == windowSize + 0x1_0000_0000_0000_0000
    {
      if windowSize < 0 then windowSize + TWO64 else windowSize
    }

    constructor (windowSize: int)
      ensures this.windowSize == windowSize && packets == []
    {
      this.windowSize := windowSize;
      packets := [];
    }

    // The front of the deque, which must not be empty.
    method GetNextSeqNum() returns (seqNum: u32)
      requires packets != []
      ensures seqNum == packets[0].header.seqNum
    {
      seqNum := packets[0].header.seqNum;
    }

    method AddPacket(packet: Packet)
      modifies this`packets
      ensures packets == old(packets) + [packet]
    {
      packets := packets + [packet];
    }

    // Each pop_front needs a packet to pop.
    method RemoveAcknowledgedPackets(count: nat)
      requires count <= |packets|
      modifies this`packets
      ensures packets == old(packets)[count..]
    {
      var i := 0;
      while i < count
        invariant 0 <= i <= count
        invariant packets == old(packets)[i..]
      {
        packets := packets[1..];
        i := i + 1;
      }
    }

    method HasUnacknowledgedPackets() returns (r: bool)
      ensures r <==> packets != []
    {
      r := packets != [];
    }

    method CanAddPacket() returns (r: bool)
      ensures r <==> |packets| < Limit()
      ensures 0 <= windowSize ==> (r <==> |packets| < windowSize)
    {
      r := |packets| < Limit();
    }
  }

  /** The run all has sent what took the wire from before to now, and goes on as rest. */
  ghost predicate Continues(all: SendRun, before: seq<seq<byte>>, now: seq<seq<byte>>, rest: SendRun) {
    && all.state == rest.state && all.outcome == rest.outcome
    && before + all.sent == now + rest.sent
  }

  /** From an empty wire that is to say: the run is what has been sent. */
  lemma ContinuesFromNothing(all: SendRun, now: seq<seq<byte>>, rest: SendRun)
    requires rest.sent == []
    ensures Continues(all, [], now, rest) <==> all == rest.(sent := now)
  {
    assert [] + all.sent == all.sent && now + [] == now;
  }

  class Sender {
    const window: Window
    var wire: seq<seq<byte>> // what has been handed to sendto, in order

    constructor (windowSize: int)
      ensures fresh(window) && window.windowSize == windowSize && window.packets == [] && wire == []
    {
      window := new Window(windowSize);
      wire := [];
    }

    method SendPacket(packet: Packet, isFirstSend: bool)
      modifies this`wire, window`packets
      ensures wire == old(wire) + [Serialize(packet)]
      ensures window.packets == old(window.packets) + if isFirstSend then [packet] else []
    {
      wire := wire + [Serialize(packet)];
      if isFirstSend {
        window.AddPacket(packet);
      }
    }

    /** The loop that resends the window. */
    method ResendAll()
      modifies this`wire, window`packets
      ensures wire == old(wire) + Datagrams(window.packets)
      ensures window.packets == old(window.packets)
    {
      hide Serialize;
      var packets := window.packets;
      var k := 0;
      while k < |packets|
        invariant 0 <= k <= |packets|
        invariant window.packets == packets
        invariant old(wire) + Datagrams(packets) == wire + Datagrams(packets[k..])
      {
        assert packets[k..][1..] == packets[k + 1..];
        SendPacket(packets[k], false);
        k := k + 1;
      }
      assert packets[k..] == [];
    }

    method SendNext(buffer: seq<byte>, offset0: nat, dataSeqNum0: u32) returns (offset: nat, dataSeqNum: u32)
      requires offset0 < |buffer|
      modifies this`wire, window`packets
      ensures SenderState(offset, dataSeqNum, window.packets)
              == SendChunk(buffer, SenderState(offset0, dataSeqNum0, old(window.packets)))
      ensures wire == old(wire) + [Serialize(NextPacket(buffer, offset0, dataSeqNum0))]
      ensures offset0 < offset <= |buffer|
    {
      hide CrcU32;
      var chunkSize := Min(CHUNK_SIZE, |buffer| - offset0);
      var dataPacket := MakePacket(DATA, buffer[offset0..offset0 + chunkSize], dataSeqNum0);
      dataSeqNum := ToU32(dataSeqNum0 + 1);
      SendPacket(dataPacket, true);
      offset := offset0 + chunkSize;
    }

    /** The inner loop of sendData. */
    method FillWindow(buffer: seq<byte>, offset0: nat, dataSeqNum0: u32) returns (offset: nat, dataSeqNum: u32)
      modifies this`wire, window`packets
      ensures (SenderState(offset, dataSeqNum, window.packets), wire) ==
              var (t, sent) := Fill(buffer, window.Limit(), SenderState(offset0, dataSeqNum0, old(window.packets)));
              (t, old(wire) + sent)
      ensures 0 <= window.windowSize ==>
                (SenderState(offset, dataSeqNum, window.packets), wire) ==
                var (t, sent) :=
                  Fill(buffer, window.windowSize, SenderState(offset0, dataSeqNum0, old(window.packets)));
                (t, old(wire) + sent)
    {
      hide Fill, SendChunk, NextPacket, Serialize;
      offset, dataSeqNum := offset0, dataSeqNum0;
      ghost var s0 := SenderState(offset0, dataSeqNum0, window.packets);
      ghost var s := s0;
      var canAdd := window.CanAddPacket();
      while canAdd && offset < |buffer|
        invariant canAdd <==> |window.packets| < window.Limit()
        invariant s == SenderState(offset, dataSeqNum, window.packets)
        invariant Fill(buffer, window.Limit(), s0).0 == Fill(buffer, window.Limit(), s).0
        invariant old(wire) + Fill(buffer, window.Limit(), s0).1 == wire + Fill(buffer, window.Limit(), s).1
        decreases |buffer| - offset
      {
        FillOnce(buffer, window.Limit(), s);
        offset, dataSeqNum := SendNext(buffer, offset, dataSeqNum);
        s := SenderState(offset, dataSeqNum, window.packets);
        canAdd := window.CanAddPacket();
      }
      FillOnce(buffer, window.Limit(), s);
      assert wire + [] == wire;
    }

    /** The branches on what receiveAck returned. Where the C++ would take the front of an
        empty deque or pop it, ok is false and nothing is done. */
    method HandleReply(ackPacket: Packet, ghost s: SenderState) returns (ok: bool)
      requires s.window == window.packets
      modifies this`wire, window`packets
      ensures match OnReply(s, ackPacket)
              case Ok(t) => ok && window.packets == t.window && t == s.(window := t.window)
                            && wire == old(wire) + Datagrams(Resent(s, ackPacket))
              case Err(f) => !ok && f == EmptyDeque && window.packets == s.window && wire == old(wire)
    {
      hide CrcU32;
      ok := true;
      if ackPacket.header.typ == TIMEOUT {
        ResendAll();
      } else if ChecksumOk(ackPacket) {
        if window.packets == [] {
          return false;
        }
        var next := window.GetNextSeqNum();
        if ackPacket.header.seqNum > next {
          var ackedPackets := ackPacket.header.seqNum - next;
          if ackedPackets > |window.packets| {
            return false;
          }
          window.RemoveAcknowledgedPackets(ackedPackets);
        }
      }
    }

    /** One turn of the outer loop; Waiting means that it goes on. */
    method TakeTurn(buffer: seq<byte>, offset0: nat, dataSeqNum0: u32, reply: Reply)
      returns (offset: nat, dataSeqNum: u32, outcome: Outcome)
      modifies this`wire, window`packets
      ensures var r := Turn(buffer, window.Limit(), SenderState(offset0, dataSeqNum0, old(window.packets)), reply);
              && SenderState(offset, dataSeqNum, window.packets) == r.state
              && wire == old(wire) + r.sent && outcome == r.outcome
      ensures 0 <= window.windowSize ==>
                var r := Turn(buffer, window.windowSize,
                              SenderState(offset0, dataSeqNum0, old(window.packets)), reply);
                && SenderState(offset, dataSeqNum, window.packets) == r.state
                && wire == old(wire) + r.sent && outcome == r.outcome
    {
      hide Fill, ReceiveAck, OnReply, CrcU32;
      offset, dataSeqNum := FillWindow(buffer, offset0, dataSeqNum0);
      var received := ReceiveAck(reply);
      if received.Err? {
        return offset, dataSeqNum, Faulted(received.fault);
      }
      var ok := HandleReply(received.value, SenderState(offset, dataSeqNum, window.packets));
      outcome := if ok then Waiting else Faulted(EmptyDeque);
    }

    /** sendData over what its calls of receiveAck meet. The calls it would make beyond the
        last of them are not modelled: it is then Waiting. */
    method SendData(buffer: seq<byte>, replies: seq<Reply>)
      returns (outcome: Outcome, offset: nat, dataSeqNum: u32)
      modifies this`wire, window`packets
      ensures Continues(Run(buffer, window.Limit(), SenderState(0, 0, old(window.packets)), replies),
                        old(wire), wire,
                        SendRun(SenderState(offset, dataSeqNum, window.packets), [], outcome))
      ensures 0 <= window.windowSize ==>
                Continues(Run(buffer, window.windowSize, SenderState(0, 0, old(window.packets)), replies),
                          old(wire), wire,
                          SendRun(SenderState(offset, dataSeqNum, window.packets), [], outcome))
    {
      hide Run, Turn;
      offset, dataSeqNum := 0, 0;
      var w := window.Limit();
      ghost var all := Run(buffer, w, SenderState(0, 0, window.packets), replies);
      var k := 0;
      var has := window.HasUnacknowledgedPackets();
      while offset < |buffer| || has
        invariant 0 <= k <= |replies|
        invariant has <==> window.packets != []
        invariant Continues(all, old(wire), wire,
                            Run(buffer, w, SenderState(offset, dataSeqNum, window.packets), replies[k..]))
        decreases |replies| - k
      {
        ghost var s := SenderState(offset, dataSeqNum, window.packets);
        assert replies[k..] != [] ==> replies[k..][0] == replies[k] && replies[k..][1..] == replies[k + 1..];
        RunOnce(buffer, w, s, replies[k..]);
        if k == |replies| {
          offset, dataSeqNum := FillWindow(buffer, offset, dataSeqNum);
          return Waiting, offset, dataSeqNum;
        }
        offset, dataSeqNum, outcome := TakeTurn(buffer, offset, dataSeqNum, replies[k]);
        if outcome != Waiting {
          return outcome, offset, dataSeqNum;
        }
        k := k + 1;
        has := window.HasUnacknowledgedPackets();
      }
      RunOnce(buffer, w, SenderState(offset, dataSeqNum, window.packets), replies[k..]);
      outcome := Finished;
    }
  }

  class Receiver {
    const windowSize: int
    var connection: bool
    var nextSeq: int
    var counter: int
    var startAck: int
    var receivedPackets: map<int, Packet>
    var files: map<int, seq<byte>> // FILE-i.out under i

    constructor (windowSize: int)
      ensures this.windowSize == windowSize
      ensures State() == R.ReceiverState(false, 0, -1, 0, map[], map[])
    {
      this.windowSize := windowSize;
      connection, nextSeq, counter, startAck := false, 0, -1, 0;
      receivedPackets, files := map[], map[];
    }

    function State(): R.ReceiverState
      reads this
    {
      R.ReceiverState(connection, nextSeq, counter, startAck, receivedPackets, files)
    }

    method WriteToFile(data: seq<byte>, index: int)
      modifies this`files
      ensures files == R.Append(old(files), index, data)
    {
      var before := if index in files then files[index] else [];
      files := files[index := before + data];
    }

    /** The loop that writes and erases while next_seq is in the map. */
    method DrainBuffer()
      modifies this`receivedPackets, this`files
      ensures (receivedPackets, files) == R.Drain(old(receivedPackets), old(files), nextSeq, counter)
    {
      while nextSeq in receivedPackets
        invariant R.Drain(receivedPackets, files, nextSeq, counter)
                  == R.Drain(old(receivedPackets), old(files), nextSeq, counter)
        decreases |receivedPackets|
      {
        var order := receivedPackets[nextSeq];
        receivedPackets := receivedPackets - {nextSeq};
        WriteToFile(order.data, counter);
      }
    }

    method HandleData(p: Packet) returns (ack: R.Option<u32>)
      modifies this
      ensures R.Reaction(State(), ack) == R.OnData(windowSize, old(State()), p)
    {
      hide CrcU32;
      ack := R.None;
      var seqNum := ToInt32(p.header.seqNum);
      if ChecksumOk(p) {
        if nextSeq + windowSize > seqNum && nextSeq <= seqNum {
          receivedPackets := receivedPackets[seqNum := p];
          if seqNum == nextSeq {
            DrainBuffer();
            nextSeq := nextSeq + 1;
          }
          ack := R.Some(ToU32(nextSeq));
        }
      }
    }

    /** One turn of the loop: the reply to one datagram, or the exception that ends it. */
    method Handle(d: seq<byte>) returns (r: Result<R.Option<u32>>)
      modifies this
      ensures match R.OnDatagram(windowSize, old(State()), d)
              case Ok(q) => State() == q.state && r == Ok(q.ack)
              case Err(f) => State() == old(State()) && r == Err(f)
    {
      hide ParsePacket1, CrcU32, R.OnData;
      var parsed := ParsePacket1(Truncate(d, RECV_BUFFER));
      if parsed.Err? {
        return Err(parsed.fault);
      }
      var p := parsed.value;
      var ack: R.Option<u32> := R.None;
      if p.header.typ == START {
        if !connection {
          connection, nextSeq := true, 0;
          startAck := ToInt32(p.header.seqNum);
          ack := R.Some(p.header.seqNum);
          counter := counter + 1;
        }
      } else if p.header.typ == END {
        connection := false;
        ack := R.Some(ToU32(startAck));
      } else if p.header.typ == DATA {
        ack := HandleData(p);
      }
      r := Ok(ack);
    }

    /** The endless loop, over the datagrams that arrive; it ends early only if it throws. */
    method StartReceiving(ds: seq<seq<byte>>) returns (acks: seq<u32>)
      modifies this
      ensures R.Trace(State(), acks) == R.Run(windowSize, old(State()), ds)
    {
      hide R.OnDatagram, R.Run, R.AckSeq;
      ghost var all := R.Run(windowSize, State(), ds);
      acks := [];
      var k := 0;
      assert ds[0..] == ds;
      while k < |ds|
        invariant 0 <= k <= |ds|
        invariant all.state == R.Run(windowSize, State(), ds[k..]).state
        invariant all.acks == acks + R.Run(windowSize, State(), ds[k..]).acks
      {
        R.RunFrom(windowSize, State(), ds, k);
        var r := Handle(ds[k]);
        if r.Err? {
          return;
        }
        acks := acks + R.AckSeq(r.value);
        k := k + 1;
      }
      R.RunFrom(windowSize, State(), ds, k);
    }
  }
}
