/** One clean round of the base protocol: a timeout whose retransmissions all arrive in
    order, and whose ACKs do too. */
module BaseRound {
  import opened Wire
  import opened Chunks
  import opened BaseSender
  import opened BaseReceiver
  import opened Network
  import opened BaseProtocol
  import opened BaseLiveness

  function AckOf(r: Result<Reaction>): seq<seq<byte>> {
    if r.Ok? && r.value.ack.Some? then [AckBytes(r.value.ack.value)] else []
  }

  /** The packets reach the receiver one after the other; the ACKs it sends, in order. */
  function DeliverInOrder(c: Config, s: System, ps: seq<Packet>): (System, seq<seq<byte>>)
    decreases |ps|
  {
    if ps == [] then (s, [])
    else
      var ack := AckOf(OnDatagram(c.recvWindow, s.receiver, Serialize(ps[0])));
      var t := Receive(c, s, Serialize(ps[0]), if ack == [] then [] else ack[0]);
      var (u, acks) := DeliverInOrder(c, t, ps[1..]);
      (u, ack + acks)
  }

  lemma DeliverOnce(c: Config, s: System, p: Packet, ps: seq<Packet>, ack: seq<byte>, t: System)
    requires ack == (var a := AckOf(OnDatagram(c.recvWindow, s.receiver, Serialize(p))); if a == [] then [] else a[0])
    requires t == Receive(c, s, Serialize(p), ack) && ps != [] && ps[0] == p
    ensures var (u, acks) := DeliverInOrder(c, t, ps[1..]);
            DeliverInOrder(c, s, ps) == (u, AckOf(OnDatagram(c.recvWindow, s.receiver, Serialize(p))) + acks)
  {
    hide AckOf, OnDatagram, Receive, Serialize;
  }

  /** The sender's inner loop. */
  function FillAll(c: Config, s: System): System
    decreases |c.file| - s.sender.offset
  {
    if CanSend(c.file, c.sendWindow, s.sender) then
      ChunkAdvances(c.file, s.sender);
      FillAll(c, s.(sender := SendChunk(c.file, s.sender),
                    data := s.data + {Sent(NextPacket(c.file, s.sender.offset, s.sender.dataSeqNum))}))
    else s
  }

  /** The sender's outer loop, meeting these ACKs; it may exit before the last. */
  function HearInOrder(c: Config, s: System, acks: seq<seq<byte>>): System
    decreases |acks|
  {
    if acks == [] || !Running(c.file, s.sender) then s
    else HearInOrder(c, Hear(FillAll(c, s), Datagram(acks[0])), acks[1..])
  }

  /** acks are the ACKs m + 1, m + 2, ... in order, all under way. */
  ghost predicate AcksFrom(s: System, acks: seq<seq<byte>>, m: int) {
    && 0 <= m && m + |acks| < TWO32
    && (forall j | 0 <= j < |acks| :: acks[j] in s.acks && IsAckDatagram(acks[j], m + 1 + j))
  }

  lemma InvBounds(c: Config, s: System)
    requires Inv(c, s)
    ensures !s.faulted && ReceiverOk(c.file, s.before, s.receiver)
    ensures 0 <= Base(s.sender) <= s.receiver.nextSeq <= s.sender.dataSeqNum <= NumChunks(c.file)
  {
    hide SenderOk, FlightOk, AckOk;
    SenderBounds(c, s.sender);
  }

  // Packet i, sound, in front of the receiver that awaits nextSeq >= i.
  lemma DeliverOne(c: Config, s: System, i: u32) returns (ack: seq<byte>)
    requires c.Valid() && c.recvWindow >= 1 && Inv(c, s)
    requires i < s.sender.dataSeqNum && i <= s.receiver.nextSeq && Sent(DataPacket(c.file, i)) in s.data
    ensures var d := Serialize(DataPacket(c.file, i));
            var acks := AckOf(OnDatagram(c.recvWindow, s.receiver, d));
            var t := Receive(c, s, d, ack);
            && ack == (if acks == [] then [] else acks[0])
            && Enabled(c, s, DeliverData(Sent(DataPacket(c.file, i)), ack))
            && t == Apply(c, s, DeliverData(Sent(DataPacket(c.file, i)), ack))
            && Inv(c, t) && t.sender == s.sender && t.data == s.data
            && (i < s.receiver.nextSeq ==> acks == [] && t == s)
            && (i == s.receiver.nextSeq ==>
                  && acks == [ack] && t.acks == s.acks + {ack} && IsAckDatagram(ack, i + 1)
                  && t.receiver.nextSeq == i + 1)
  {
    hide SenderOk, Carries, OnDatagram, FlightOk, AckOk, IsAckDatagram, Serialize, DataPacket, Inv;
    var f := Sent(DataPacket(c.file, i));
    InvBounds(c, s);
    SentCarries(c.file, i);
    SentUndamaged(DataPacket(c.file, i));
    DataArrives(c, s.before, s.receiver, i, f);
    var acks := AckOf(OnDatagram(c.recvWindow, s.receiver, f.bytes));
    ack := if acks == [] then [] else acks[0];
    StepKeepsInv(c, s, DeliverData(f, ack));
  }

  lemma SentAllTail(ps: seq<Packet>)
    requires ps != []
    ensures SentAll(ps[1..]) <= SentAll(ps) && Sent(ps[0]) in SentAll(ps)
  {
    hide Sent;
    assert ps[0] in ps;
    assert forall p | p in ps[1..] :: p in ps;
  }

  lemma BytesOfSent(p: Packet)
    ensures Sent(p).bytes == Serialize(p)
  {
  }

  // The first of the packets from i on, and what is left to deliver after it.
  lemma DeliverFront(c: Config, s: System, i: u32) returns (ack: seq<byte>, t: System)
    requires c.Valid() && c.recvWindow >= 1 && Inv(c, s)
    requires i < s.sender.dataSeqNum && i <= s.receiver.nextSeq
    requires SentAll(Packets(c.file, s.sender.dataSeqNum)[i..]) <= s.data
    ensures var step := DeliverData(Sent(DataPacket(c.file, i)), ack);
            Enabled(c, s, step) && t == Apply(c, s, step)
    ensures Inv(c, t) && t.sender == s.sender
    ensures SentAll(Packets(c.file, s.sender.dataSeqNum)[i + 1..]) <= t.data
    ensures var (u, acks) := DeliverInOrder(c, t, Packets(c.file, s.sender.dataSeqNum)[i + 1..]);
            DeliverInOrder(c, s, Packets(c.file, s.sender.dataSeqNum)[i..])
            == (u, (if i == s.receiver.nextSeq then [ack] else []) + acks)
    ensures i < s.receiver.nextSeq ==> t == s
    ensures i == s.receiver.nextSeq ==>
              t.acks == s.acks + {ack} && IsAckDatagram(ack, i + 1) && t.receiver.nextSeq == i + 1
  {
    hide Inv, Enabled, Apply, Receive, OnDatagram, IsAckDatagram, Serialize, DataPacket, Packets, Sent, SentAll;
    hide AckOf, DeliverInOrder;
    var ps := Packets(c.file, s.sender.dataSeqNum)[i..];
    PacketAt(c.file, s.sender.dataSeqNum, i);
    SentAllTail(ps);
    assert ps[0] == DataPacket(c.file, i) && ps[0] in ps;
    assert ps[1..] == Packets(c.file, s.sender.dataSeqNum)[i + 1..];
    BytesOfSent(ps[0]);
    ack := DeliverOne(c, s, i);
    t := Receive(c, s, Serialize(ps[0]), ack);
    DeliverOnce(c, s, ps[0], ps, ack, t);
  }

  lemma PrependAck(t: System, u: System, ack: seq<byte>, acks: seq<seq<byte>>, i: u32)
    requires i + 1 < TWO32
    requires ack in t.acks && t.acks <= u.acks && IsAckDatagram(ack, i + 1) && AcksFrom(u, acks, i + 1)
    ensures AcksFrom(u, [ack] + acks, i)
  {
    hide IsAckDatagram;
    var all := [ack] + acks;
    forall j | 0 <= j < |all|
      ensures all[j] in u.acks && IsAckDatagram(all[j], i + 1 + j)
    {
      if j > 0 {
        assert all[j] == acks[j - 1];
      }
    }
  }

  lemma NoneLeft(c: Config, s: System)
    ensures DeliverInOrder(c, s, []) == (s, [])
    ensures 0 <= s.receiver.nextSeq < TWO32 ==> AcksFrom(s, [], s.receiver.nextSeq)
  {
  }

  lemma {:induction false} DeliverRest(c: Config, s: System, i: u32) returns (steps: seq<Step>)
    requires c.Valid() && c.recvWindow >= 1 && Inv(c, s)
    requires i <= s.sender.dataSeqNum && i <= s.receiver.nextSeq
    requires SentAll(Packets(c.file, s.sender.dataSeqNum)[i..]) <= s.data
    ensures var (t, acks) := DeliverInOrder(c, s, Packets(c.file, s.sender.dataSeqNum)[i..]);
            && Reaches(c, s, steps, t) && Inv(c, t)
            && t.sender == s.sender && t.receiver.nextSeq == s.sender.dataSeqNum && s.acks <= t.acks
            && AcksFrom(t, acks, s.receiver.nextSeq) && |acks| == s.sender.dataSeqNum - s.receiver.nextSeq
    decreases s.sender.dataSeqNum - i
  {
    hide Inv, Enabled, Apply, IsAckDatagram, DataPacket, Packets, Sent, Reaches, SentAll, DeliverInOrder, AcksFrom;
    InvBounds(c, s);
    var n: u32 := s.sender.dataSeqNum;
    if i == n {
      assert Packets(c.file, n)[i..] == [];
      AtOnce(c, s);
      NoneLeft(c, s);
      steps := [];
    } else {
      var ack, t := DeliverFront(c, s, i);
      var step := DeliverData(Sent(DataPacket(c.file, i)), ack);
      OneStep(c, s, step);
      var rest := DeliverRest(c, t, i + 1);
      var (u, acks) := DeliverInOrder(c, t, Packets(c.file, n)[i + 1..]);
      steps := [step] + rest;
      ReachesTrans(c, s, [step], t, rest, u);
      if i == s.receiver.nextSeq {
        PrependAck(t, u, ack, acks, i);
      } else {
        assert [] + acks == acks;
      }
    }
  }

  lemma SenderOfInv(c: Config, s: System)
    requires Inv(c, s)
    ensures SenderOk(c.file, c.sendWindow, s.sender)
  {
  }

  lemma {:induction false} FillAllRuns(c: Config, s: System) returns (steps: seq<Step>)
    requires c.Valid() && Inv(c, s)
    ensures var t := FillAll(c, s);
            && Reaches(c, s, steps, t) && Inv(c, t) && !CanSend(c.file, c.sendWindow, t.sender)
            && Base(t.sender) == Base(s.sender) && t.sender.dataSeqNum >= s.sender.dataSeqNum
            && t.receiver == s.receiver && t.acks == s.acks
    decreases |c.file| - s.sender.offset
  {
    hide Inv, SendChunk, NextPacket, Reaches, Sent;
    if CanSend(c.file, c.sendWindow, s.sender) {
      InvBounds(c, s);
      SenderOfInv(c, s);
      ChunkAdvances(c.file, s.sender);
      SendChunkKeeps(c.file, c.sendWindow, s.sender);
      StepKeepsInv(c, s, Send);
      OneStep(c, s, Send);
      var t := Apply(c, s, Send);
      var rest := FillAllRuns(c, t);
      steps := [Send] + rest;
      ReachesTrans(c, s, [Send], t, rest, FillAll(c, s));
    } else {
      AtOnce(c, s);
      steps := [];
    }
  }

  lemma NextAcks(s: System, u: System, acks: seq<seq<byte>>, m: int)
    requires AcksFrom(s, acks, m) && acks != [] && u.acks == s.acks
    ensures AcksFrom(u, acks[1..], m + 1)
  {
    hide IsAckDatagram;
    forall j | 0 <= j < |acks[1..]|
      ensures acks[1..][j] in u.acks && IsAckDatagram(acks[1..][j], m + 1 + 1 + j)
    {
      assert acks[1..][j] == acks[j + 1];
      assert IsAckDatagram(acks[j + 1], m + 1 + (j + 1));
    }
  }

  // One more ACK than has been heard, when the sender has no more to send.
  lemma HearOne(c: Config, s: System, d: seq<byte>, a: u32)
    requires c.Valid() && Inv(c, s) && !CanSend(c.file, c.sendWindow, s.sender)
    requires d in s.acks && IsAckDatagram(d, a) && Base(s.sender) < a <= s.receiver.nextSeq
    ensures var u := Hear(s, Datagram(d));
            && Reaches(c, s, [DeliverAck(d)], u) && Inv(c, u)
            && u.receiver == s.receiver && u.acks == s.acks && Base(u.sender) == a
  {
    hide Inv, Reaches, Hear, OnAck, IsAckDatagram, SenderOk;
    InvBounds(c, s);
    SenderOfInv(c, s);
    SendBounds(c, s.sender);
    ListeningHasWindow(c, s.sender);
    AckMovesBase(c.file, c.sendWindow, s.sender, a);
    AckArrives(c, s, d, a);
    OneStep(c, s, DeliverAck(d));
    StepKeepsInv(c, s, DeliverAck(d));
  }

  lemma {:induction false} HearRest(c: Config, s: System, acks: seq<seq<byte>>, m: int) returns (steps: seq<Step>)
    requires c.Valid() && Inv(c, s) && AcksFrom(s, acks, m)
    requires Base(s.sender) <= m && m + |acks| <= s.receiver.nextSeq
    ensures var u := HearInOrder(c, s, acks);
            && Reaches(c, s, steps, u) && Inv(c, u) && u.receiver == s.receiver
            && Base(u.sender) == if acks == [] then Base(s.sender) else m + |acks|
    decreases |acks|
  {
    hide Inv, Reaches, Hear, IsAckDatagram, FillAll, SenderOk;
    if acks == [] {
      AtOnce(c, s);
      steps := [];
    } else {
      InvBounds(c, s);
      SenderOfInv(c, s);
      SendBounds(c, s.sender);
      var xs := FillAllRuns(c, s);
      var t := FillAll(c, s);
      assert acks[0] in s.acks && IsAckDatagram(acks[0], m + 1 + 0);
      var step := DeliverAck(acks[0]);
      HearOne(c, t, acks[0], m + 1);
      var u := Hear(t, Datagram(acks[0]));
      NextAcks(s, u, acks, m);
      var ys := HearRest(c, u, acks[1..], m + 1);
      ReachesTrans(c, s, xs, t, [step], u);
      ReachesTrans(c, s, xs + [step], u, ys, HearInOrder(c, s, acks));
      steps := xs + [step] + ys;
    }
  }

  // The round from where the sender listens.
  lemma RoundFrom(c: Config, s: System) returns (steps: seq<Step>)
    requires c.Valid() && c.recvWindow >= 1 && Inv(c, s) && !CanSend(c.file, c.sendWindow, s.sender)
    requires s.receiver.nextSeq < s.sender.dataSeqNum
    ensures var (t, acks) := DeliverInOrder(c, Hear(s, NoReply), s.sender.window);
            var u := HearInOrder(c, t, acks);
            && Reaches(c, s, steps, u)
            && Base(u.sender) == s.sender.dataSeqNum
            && Output(u) == s.before + ConcatChunks(c.file, s.sender.dataSeqNum)
  {
    hide Inv, Hear, SentAll, Packets, Reaches, AcksFrom;
    InvBounds(c, s);
    SenderOfInv(c, s);
    SendBounds(c, s.sender);
    OneStep(c, s, Timeout);
    StepKeepsInv(c, s, Timeout);
    TimeoutResends(c, s);
    var r := Hear(s, NoReply);
    var xs := DeliverRest(c, r, Base(s.sender));
    var (t, acks) := DeliverInOrder(c, r, s.sender.window);
    var ys := HearRest(c, t, acks, s.receiver.nextSeq);
    var u := HearInOrder(c, t, acks);
    ReachesTrans(c, s, [Timeout], r, xs, t);
    ReachesTrans(c, s, [Timeout] + xs, t, ys, u);
    steps := [Timeout] + xs + ys;
    RunKeepsInv(c, s, steps, u);
    OutputAt(c, u);
    ConcatIsPrefix(c.file, s.sender.dataSeqNum);
  }

  /** From any reachable state where something sent is still awaited, one such round, begun
      when the sender has sent what its window has room for, moves the window up to
      everything that had been sent by then, and the file written with it. */
  lemma CleanRound(c: Config, s: System) returns (steps: seq<Step>)
    requires c.Valid() && c.recvWindow >= 1 && Reachable(c, s)
    requires s.receiver.nextSeq < s.sender.dataSeqNum
    ensures var f := FillAll(c, s);
            var (t, acks) := DeliverInOrder(c, Hear(f, NoReply), f.sender.window);
            var u := HearInOrder(c, t, acks);
            && s.sender.dataSeqNum <= f.sender.dataSeqNum
            && Reaches(c, s, steps, u)
            && Base(u.sender) == f.sender.dataSeqNum
            && Output(u) == s.before + ConcatChunks(c.file, f.sender.dataSeqNum)
  {
    hide Inv, Hear, SentAll, Packets, Reaches, Reachable, AcksFrom, FillAll, SenderOk;
    ReachableInv(c, s);
    var ws := FillAllRuns(c, s);
    var f := FillAll(c, s);
    InvBounds(c, f);
    var xs := RoundFrom(c, f);
    var (t, acks) := DeliverInOrder(c, Hear(f, NoReply), f.sender.window);
    ReachesTrans(c, s, ws, f, xs, HearInOrder(c, t, acks));
    steps := ws + xs;
    RunKeepsInv(c, s, ws, f);
  }
}
