/** The objects of cpp/src/opt that are updated in place: Window with its flags, SenderOpt
    with its timers and its loop sendData, and Receiver. Each method is proved equal to the
    step it performs in OptSender or OptReceiver. */
module OptClasses {
  import opened Wire
  import opened Chunks
  import opened OptSender
  import BaseS = BaseSender
  import R = BaseReceiver
  import Rcv = OptReceiver

  lemma SetInPlace<T>(s: seq<T>, k: nat, x: T)
    requires k < |s|
    ensures s[k := x] == s[..k] + ([x] + s[k + 1..])
  {
  }

  lemma MoveAcross<T>(s: seq<T>, k: nat, rest: seq<T>)
    requires k < |s|
    ensures s[..k] + ([s[k]] + rest) == s[..k + 1] + rest
  {
  }

  lemma MarkNone(seqNum: u32)
    ensures Mark([], seqNum) == []
  {
  }

  class Window {
    const windowSize: int
    var packets: seq<OptPacket>

    // The size as canAddPacket compares it: a negative int converts to a huge unsigned long.
    function Limit(): (l: int)
      ensures 0 <= windowSize ==> l == windowSize
      ensures windowSize < 0 ==> l == windowSize + 0x1_0000_0000_0000_0000
    {
      if windowSize < 0 then windowSize + TWO64 else windowSize
    }

    constructor (windowSize: int)
      ensures this.windowSize == windowSize && packets == []
    {
      this.windowSize := windowSize;
      packets := [];
    }

    method AddPacket(packet: OptPacket)
      modifies this`packets
      ensures packets == old(packets) + [packet]
    {
      packets := packets + [packet];
    }

    method HasPackets() returns (r: bool)
      ensures r <==> packets != []
    {
      r := packets != [];
    }

    method CanAddPacket() returns (r: bool)
      ensures r <==> |packets| < Limit()
      ensures 0 <= windowSize ==> (r <==> |packets| < windowSize)
    {
      r := |packets| < Limit();
    }

    /** The loop that flags the first packet of the number, and stops there. */
    method MarkPacketAsAcked(seqNum: u32)
      modifies this`packets
      ensures packets == Mark(old(packets), seqNum)
    {
      hide Mark;
      var k := 0;
      assert packets[0..] == packets;
      while k < |packets|
        invariant 0 <= k <= |packets| && packets == old(packets)
        invariant Mark(packets, seqNum) == packets[..k] + Mark(packets[k..], seqNum)
      {
        MarkOnce(packets, k, seqNum);
        var packet := packets[k];
        if packet.SeqNum() == seqNum {
          SetInPlace(packets, k, packet.(acked := true));
          packets := packets[k := packet.(acked := true)];
          return;
        }
        MoveAcross(packets, k, Mark(packets[k + 1..], seqNum));
        k := k + 1;
      }
      MarkNone(seqNum);
      assert packets[k..] == [] && packets[..k] == packets;
    }

    /** The loop that pops acknowledged packets off the front. */
    method DetermineWindowAdvance() returns (advanceCount: nat)
      modifies this`packets
      ensures packets == Advance(old(packets))
      ensures advanceCount == |old(packets)| - |packets|
    {
      advanceCount := 0;
      while packets != [] && packets[0].acked
        invariant Advance(packets) == Advance(old(packets))
        invariant advanceCount == |old(packets)| - |packets|
        decreases |packets|
      {
        packets := packets[1..];
        advanceCount := advanceCount + 1;
      }
    }
  }

  /** The run all has sent what took the wire from before to now, and goes on as rest. */
  ghost predicate Continues(all: OptRun, before: seq<seq<byte>>, now: seq<seq<byte>>, rest: OptRun) {
    && all.state == rest.state && all.outcome == rest.outcome
    && before + all.sent == now + rest.sent
  }

  /** From an empty wire that is to say: the run is what has been sent. */
  lemma ContinuesFromNothing(all: OptRun, now: seq<seq<byte>>, rest: OptRun)
    requires rest.sent == []
    ensures Continues(all, [], now, rest) <==> all == rest.(sent := now)
  {
    assert [] + all.sent == all.sent && now + [] == now;
  }

  class SenderOpt {
    const window: Window
    var wire: seq<seq<byte>> // what has been handed to sendto, in order
    var socketTimeout: Timeval

    constructor (windowSize: int)
      ensures fresh(window) && window.windowSize == windowSize && window.packets == []
      ensures wire == [] && socketTimeout == ToTimeval(TIMEOUT_MS)
    {
      window := new Window(windowSize);
      wire := [];
      socketTimeout := Timeval(0, 500_000);
    }

    /** The loop over the window that finds the least remaining time. */
    method UpdateSocketTimeout(now: int)
      modifies this`socketTimeout
      ensures window.packets != [] ==> socketTimeout == ToTimeval(SocketTimeout(window.packets, now))
      ensures window.packets == [] ==> socketTimeout == old(socketTimeout)
    {
      if window.packets == [] {
        return;
      }
      var minTimeout := TIMEOUT_MS;
      var k := 0;
      while k < |window.packets|
        invariant 0 <= k <= |window.packets|
        invariant SocketTimeout(window.packets, now) == MinTimeout(window.packets[k..], now, minTimeout)
      {
        var packet := window.packets[k];
        assert window.packets[k..][1..] == window.packets[k + 1..];
        if !packet.acked {
          var elapsed := now - packet.sentTime;
          var remainingTime := TIMEOUT_MS - elapsed;
          if remainingTime > 0 && remainingTime < minTimeout {
            minTimeout := remainingTime;
          }
        }
        k := k + 1;
      }
      socketTimeout := Timeval(minTimeout / 1000, minTimeout % 1000 * 1000);
    }

    method SendNext(buffer: seq<byte>, offset0: nat, dataSeqNum0: u32, now: int)
      returns (offset: nat, dataSeqNum: u32)
      requires offset0 < |buffer|
      modifies this`wire, window`packets
      ensures OptState(offset, dataSeqNum, window.packets)
              == SendChunk(buffer, OptState(offset0, dataSeqNum0, old(window.packets)), now)
      ensures wire == old(wire) + [Serialize(NextPacket(buffer, offset0, dataSeqNum0))]
      ensures offset0 < offset <= |buffer|
    {
      hide CrcU32;
      var chunkSize := Min(CHUNK_SIZE, |buffer| - offset0);
      var dataPacket := MakePacket(DATA, buffer[offset0..offset0 + chunkSize], dataSeqNum0);
      dataSeqNum := ToU32(dataSeqNum0 + 1);
      wire := wire + [Serialize(dataPacket)];
      window.AddPacket(OptPacket(dataPacket, false, now));
      offset := offset0 + chunkSize;
    }

    /** The inner loop of sendData. */
    method FillWindow(buffer: seq<byte>, offset0: nat, dataSeqNum0: u32, now: int)
      returns (offset: nat, dataSeqNum: u32)
      modifies this`wire, window`packets
      ensures (OptState(offset, dataSeqNum, window.packets), wire) ==
              var (t, sent) := Fill(buffer, window.Limit(), OptState(offset0, dataSeqNum0, old(window.packets)), now);
              (t, old(wire) + sent)
      ensures 0 <= window.windowSize ==>
                (OptState(offset, dataSeqNum, window.packets), wire) ==
                var (t, sent) :=
                  Fill(buffer, window.windowSize, OptState(offset0, dataSeqNum0, old(window.packets)), now);
                (t, old(wire) + sent)
    {
      hide Fill, SendChunk, NextPacket, Serialize;
      offset, dataSeqNum := offset0, dataSeqNum0;
      ghost var s0 := OptState(offset0, dataSeqNum0, window.packets);
      ghost var s := s0;
      var canAdd := window.CanAddPacket();
      while canAdd && offset < |buffer|
        invariant canAdd <==> |window.packets| < window.Limit()
        invariant s == OptState(offset, dataSeqNum, window.packets)
        invariant Fill(buffer, window.Limit(), s0, now).0 == Fill(buffer, window.Limit(), s, now).0
        invariant old(wire) + Fill(buffer, window.Limit(), s0, now).1 == wire + Fill(buffer, window.Limit(), s, now).1
        decreases |buffer| - offset
      {
        FillOnce(buffer, window.Limit(), s, now);
        offset, dataSeqNum := SendNext(buffer, offset, dataSeqNum, now);
        s := OptState(offset, dataSeqNum, window.packets);
        canAdd := window.CanAddPacket();
      }
      FillOnce(buffer, window.Limit(), s, now);
      assert wire + [] == wire;
    }

    /** The loop that resends what is overdue, resetting each timer in place. */
    method ResendOverdue(now: int)
      modifies this`wire, window`packets
      ensures window.packets == Retransmit(old(window.packets), now)
      ensures wire == old(wire) + ResentBytes(old(window.packets), now)
    {
      hide Serialize;
      ghost var w := window.packets;
      var k := 0;
      while k < |window.packets|
        invariant 0 <= k <= |window.packets| == |w|
        invariant forall j | 0 <= j < k :: window.packets[j] == Resend(w[j], now)
        invariant window.packets[k..] == w[k..]
        invariant old(wire) + ResentBytes(w, now) == wire + ResentBytes(w[k..], now)
      {
        var packet := window.packets[k];
        assert packet == window.packets[k..][0] == w[k] && w[k..][1..] == w[k + 1..];
        if !packet.acked && HasTimedOut(packet, now) {
          wire := wire + [Serialize(packet.packet)];
          window.packets := window.packets[k := packet.(sentTime := now)];
        }
        assert window.packets[k + 1..] == w[k..][1..];
        k := k + 1;
      }
    }

    /** The branches on what receiveAck returned. */
    method HandleReply(ackPacket: Packet, now: int)
      modifies this`wire, window`packets
      ensures forall offset: nat, seqNum: u32 ::
                OnReply(OptState(offset, seqNum, old(window.packets)), ackPacket, now)
                == OptState(offset, seqNum, window.packets)
      ensures wire == old(wire) + if ackPacket.header.typ == TIMEOUT then ResentBytes(old(window.packets), now) else []
    {
      hide CrcU32, Retransmit, ResentBytes, Mark, Advance;
      if ackPacket.header.typ == TIMEOUT {
        ResendOverdue(now);
      } else if ChecksumOk(ackPacket) {
        window.MarkPacketAsAcked(ackPacket.header.seqNum);
        var _ := window.DetermineWindowAdvance();
      }
    }

    /** One turn of the outer loop; Waiting means that it goes on. */
    method TakeTurn(buffer: seq<byte>, offset0: nat, dataSeqNum0: u32, tick: Tick)
      returns (offset: nat, dataSeqNum: u32, outcome: BaseS.Outcome)
      modifies this`wire, this`socketTimeout, window`packets
      ensures var r := Turn(buffer, window.Limit(), OptState(offset0, dataSeqNum0, old(window.packets)), tick);
              && OptState(offset, dataSeqNum, window.packets) == r.state
              && wire == old(wire) + r.sent && outcome == r.outcome
      ensures 0 <= window.windowSize ==>
                var r := Turn(buffer, window.windowSize,
                              OptState(offset0, dataSeqNum0, old(window.packets)), tick);
                && OptState(offset, dataSeqNum, window.packets) == r.state
                && wire == old(wire) + r.sent && outcome == r.outcome
      ensures var w := Fill(buffer, window.Limit(), OptState(offset0, dataSeqNum0, old(window.packets)),
                            tick.sendTime).0.window;
              socketTimeout == if w == [] then old(socketTimeout) else ToTimeval(SocketTimeout(w, tick.sendTime))
    {
      hide Fill, BaseS.ReceiveAck, OnReply, ResentBytes;
      offset, dataSeqNum := FillWindow(buffer, offset0, dataSeqNum0, tick.sendTime);
      UpdateSocketTimeout(tick.sendTime);
      var received := BaseS.ReceiveAck(tick.reply);
      if received.Err? {
        return offset, dataSeqNum, BaseS.Faulted(received.fault);
      }
      HandleReply(received.value, tick.wakeTime);
      outcome := BaseS.Waiting;
    }

    /** sendData over the turns in ticks; those it would make beyond the last are not
        modelled: it is then Waiting. */
    method SendData(buffer: seq<byte>, ticks: seq<Tick>)
      returns (outcome: BaseS.Outcome, offset: nat, dataSeqNum: u32)
      modifies this`wire, this`socketTimeout, window`packets
      ensures Continues(Run(buffer, window.Limit(), OptState(0, 0, old(window.packets)), ticks),
                        old(wire), wire, OptRun(OptState(offset, dataSeqNum, window.packets), [], outcome))
      ensures 0 <= window.windowSize ==>
                Continues(Run(buffer, window.windowSize, OptState(0, 0, old(window.packets)), ticks),
                          old(wire), wire,
                          OptRun(OptState(offset, dataSeqNum, window.packets), [], outcome))
    {
      hide Run, Turn;
      offset, dataSeqNum := 0, 0;
      var w := window.Limit();
      ghost var all := Run(buffer, w, OptState(0, 0, window.packets), ticks);
      var k := 0;
      var has := window.HasPackets();
      while offset < |buffer| || has
        invariant 0 <= k <= |ticks|
        invariant has <==> window.packets != []
        invariant Continues(all, old(wire), wire,
                            Run(buffer, w, OptState(offset, dataSeqNum, window.packets), ticks[k..]))
        decreases |ticks| - k
      {
        ghost var s := OptState(offset, dataSeqNum, window.packets);
        assert ticks[k..] != [] ==> ticks[k..][0] == ticks[k] && ticks[k..][1..] == ticks[k + 1..];
        RunOnce(buffer, w, s, ticks[k..]);
        if k == |ticks| {
          return BaseS.Waiting, offset, dataSeqNum;
        }
        offset, dataSeqNum, outcome := TakeTurn(buffer, offset, dataSeqNum, ticks[k]);
        if outcome != BaseS.Waiting {
          return outcome, offset, dataSeqNum;
        }
        k := k + 1;
        has := window.HasPackets();
      }
      RunOnce(buffer, w, OptState(offset, dataSeqNum, window.packets), ticks[k..]);
      outcome := BaseS.Finished;
    }
  }

  class Receiver {
    const windowSize: int
    var connection: bool
    var nextSeq: int
    var counter: int
    var startAck: int
    var receivedPackets: map<int, Packet>
    var files: map<int, seq<byte>> // FILE-i.out under i

    constructor (windowSize: int)
      ensures this.windowSize == windowSize
      ensures State() == R.ReceiverState(false, 0, -1, 0, map[], map[])
    {
      this.windowSize := windowSize;
      connection, nextSeq, counter, startAck := false, 0, -1, 0;
      receivedPackets, files := map[], map[];
    }

    function State(): R.ReceiverState
      reads this
    {
      R.ReceiverState(connection, nextSeq, counter, startAck, receivedPackets, files)
    }

    method HandleData(p: Packet) returns (ack: R.Option<u32>)
      modifies this
      ensures R.Reaction(State(), ack) == Rcv.OnData(windowSize, old(State()), p)
    {
      hide CrcU32;
      ack := R.None;
      if ChecksumOk(p) {
        nextSeq := ToInt32(p.header.seqNum);
        if nextSeq + windowSize > ToInt32(p.header.seqNum) && nextSeq <= ToInt32(p.header.seqNum) {
          receivedPackets := receivedPackets[ToInt32(p.header.seqNum) := p];
          if nextSeq !in receivedPackets {
            assert false; // the packet was stored a line ago: the write to the file is dead code
          }
          ack := R.Some(ToU32(nextSeq));
        }
      }
    }

    /** One turn of the loop: the reply to one datagram, or the exception that ends it. */
    method Handle(d: seq<byte>) returns (r: Result<R.Option<u32>>)
      modifies this
      ensures match Rcv.OnDatagram(windowSize, old(State()), d)
              case Ok(q) => State() == q.state && r == Ok(q.ack)
              case Err(f) => State() == old(State()) && r == Err(f)
    {
      hide ParsePacket1, CrcU32, Rcv.OnData;
      var parsed := ParsePacket1(Truncate(d, RECV_BUFFER));
      if parsed.Err? {
        return Err(parsed.fault);
      }
      var p := parsed.value;
      var ack: R.Option<u32> := R.None;
      if p.header.typ == START {
        if !connection {
          connection := true;
          startAck := ToInt32(p.header.seqNum);
          ack := R.Some(p.header.seqNum);
          counter := counter + 1;
        }
      } else if p.header.typ == END {
        connection := false;
        ack := R.Some(ToU32(startAck));
      } else if p.header.typ == DATA {
        ack := HandleData(p);
      }
      r := Ok(ack);
    }

    /** The endless loop, over the datagrams that arrive; it ends early only if it throws. */
    method StartReceiving(ds: seq<seq<byte>>) returns (acks: seq<u32>)
      modifies this
      ensures R.Trace(State(), acks) == Rcv.Run(windowSize, old(State()), ds)
    {
      hide Rcv.OnDatagram, Rcv.Run, R.AckSeq;
      ghost var all := Rcv.Run(windowSize, State(), ds);
      acks := [];
      var k := 0;
      assert ds[0..] == ds;
      while k < |ds|
        invariant 0 <= k <= |ds|
        invariant all.state == Rcv.Run(windowSize, State(), ds[k..]).state
        invariant all.acks == acks + Rcv.Run(windowSize, State(), ds[k..]).acks
      {
        Rcv.RunFrom(windowSize, State(), ds, k);
        var r := Handle(ds[k]);
        if r.Err? {
          return;
        }
        acks := acks + R.AckSeq(r.value);
        k := k + 1;
      }
      Rcv.RunFrom(windowSize, State(), ds, k);
    }
  }
}
