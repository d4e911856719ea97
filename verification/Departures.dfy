/** Reachable states in which the code does not do what its documentation asks. */
module Departures {
  import opened Wire
  import opened Chunks
  import opened BaseSender
  import opened BaseReceiver
  import opened Network
  import opened BaseProtocol
  import opened BaseLiveness
  import BaseTimers
  import R = BaseRound
  import OS = OptSender
  import OptReceiver
  import OP = OptProtocol
  import OptTurn

  // ---- The answer to an in-order packet ----

  lemma AheadIsBuffered(c: Config, s: ReceiverState, before: seq<byte>, i: u32, f: Flight)
    requires c.Valid() && ReceiverOk(c.file, before, s) && i < NumChunks(c.file)
    requires Carries(c.file, i, f) && !f.damaged && s.nextSeq < i < s.nextSeq + c.recvWindow
    ensures OnDatagram(c.recvWindow, s, f.bytes).Ok?
    ensures var r := OnDatagram(c.recvWindow, s, f.bytes).value;
            r.state.received.Keys == s.received.Keys + {i as int} && r.state.nextSeq == s.nextSeq
  {
    hide Carries, CrcU32, ParsePacket1, Chunk, Contents;
    var p := FlightParses(c.file, i, f);
    DataStep(c.recvWindow, s, p);
    SmallConversions(i);
  }

  lemma AnswerToAwaited(c: Config, s: ReceiverState, before: seq<byte>, f: Flight)
    requires c.Valid() && c.recvWindow >= 1 && ReceiverOk(c.file, before, s) && 0 <= s.nextSeq < NumChunks(c.file)
    requires Carries(c.file, s.nextSeq, f) && !f.damaged
    ensures OnDatagram(c.recvWindow, s, f.bytes).Ok?
    ensures OnDatagram(c.recvWindow, s, f.bytes).value.ack == Some(s.nextSeq + 1)
  {
    hide Carries, OnDatagram, ReceiverOk;
    DataArrives(c, before, s, s.nextSeq, f);
  }

  lemma FirstIsAnswered(c: Config, s: System)
    requires c.Valid() && Inv(c, s) && c.recvWindow >= 1 && NumChunks(c.file) >= 1 && s.receiver.nextSeq == 0
    ensures OnDatagram(c.recvWindow, s.receiver, Sent(DataPacket(c.file, 0)).bytes).Ok?
    ensures OnDatagram(c.recvWindow, s.receiver, Sent(DataPacket(c.file, 0)).bytes).value.ack == Some(1)
  {
    hide Inv, DataPacket, Sent, OnDatagram, Carries, ReceiverOk;
    SentCarries(c.file, 0);
    SentUndamaged(DataPacket(c.file, 0));
    R.InvBounds(c, s);
    AnswerToAwaited(c, s.receiver, s.before, Sent(DataPacket(c.file, 0)));
  }

  lemma DeliverSecond(c: Config, f: System) returns (step: Step, s: System)
    requires c.Valid() && Inv(c, f) && c.recvWindow >= 2 && NumChunks(c.file) >= 2
    requires f.receiver.nextSeq == 0 && f.receiver.received == map[] && Sent(DataPacket(c.file, 1)) in f.data
    ensures Enabled(c, f, step) && s == Apply(c, f, step) && Inv(c, s)
    ensures s.receiver.nextSeq == 0 && s.data == f.data && s.receiver.received.Keys == {1}
  {
    hide Inv, IsAckDatagram, DataPacket, Sent, OnDatagram, Carries, ReceiverOk;
    var g := Sent(DataPacket(c.file, 1));
    SentCarries(c.file, 1);
    SentUndamaged(DataPacket(c.file, 1));
    R.InvBounds(c, f);
    DataArrives(c, f.before, f.receiver, 1, g);
    AheadIsBuffered(c, f.receiver, f.before, 1, g);
    var ack := AckBytes(0);
    step := DeliverData(g, ack);
    s := Apply(c, f, step);
    StepKeepsInv(c, f, step);
  }

  lemma FreshStarts(start: u32)
    ensures Init(Fresh(start))
  {
  }

  /** README.md asks that an in-order packet be answered with the first number still missing.
      Whenever two packets fit both windows there is a reachable state in which packet 0 is
      under way, packet 1 is buffered, and packet 0 will be answered with 1, not with 2. */
  lemma CumulativeAckFallsShort(c: Config, start: u32) returns (s: System)
    requires c.Valid() && NumChunks(c.file) >= 2 && c.sendWindow >= 2 && c.recvWindow >= 2
    ensures Reachable(c, s) && s.receiver.nextSeq == 0 && Sent(DataPacket(c.file, 0)) in s.data
    ensures OnDatagram(c.recvWindow, s.receiver, Sent(DataPacket(c.file, 0)).bytes).Ok?
    ensures OnDatagram(c.recvWindow, s.receiver, Sent(DataPacket(c.file, 0)).bytes).value.ack == Some(1)
    ensures NextMissing(s.receiver.received.Keys, 1) == 2
  {
    hide Reaches, Inv, DataPacket, Sent, OnDatagram, R.FillAll, Init;
    var steps := BaseTimers.FillFresh(c, start);
    var f := R.FillAll(c, Fresh(start));
    var step;
    step, s := DeliverSecond(c, f);
    OneStep(c, f, step);
    ReachesTrans(c, Fresh(start), steps, f, [step], s);
    FreshStarts(start);
    FirstIsAnswered(c, s);
    assert NextMissing({1}, 1) == NextMissing({1} - {1}, 2) == 2;
  }

  // ---- The opt receiver's window ----

  lemma SenderAtRest(c: Config, s: OP.System)
    requires OP.Inv(c, s) && !OS.CanSend(c.file, c.sendWindow, s.sender) && OS.Base(s.sender) == 0
    ensures s.sender.dataSeqNum == Min(NumChunks(c.file), c.sendWindow)
  {
    hide FlightOk, OP.StoredAckOk, OP.Stored, Packets;
    ChunkSizes(c.file, s.sender.dataSeqNum);
  }

  lemma SenderOfInv(c: Config, s: OP.System)
    requires OP.Inv(c, s)
    ensures OS.SenderIs(c.file, c.sendWindow, s.sender, s.heard) && !s.faulted
  {
  }

  lemma OptFillFresh(c: Config, start: u32) returns (steps: seq<OP.Step>, f: OP.System)
    requires c.Valid()
    ensures OP.Reaches(c, OP.Fresh(start), steps, f) && OP.Inv(c, f) && !f.faulted
    ensures f.receiver == OP.Fresh(start).receiver
    ensures f.sender.dataSeqNum == Min(NumChunks(c.file), c.sendWindow)
    ensures forall i: u32 | i < f.sender.dataSeqNum :: Sent(DataPacket(c.file, i)) in f.data
  {
    hide OP.Inv, OS.Fill, OP.Reaches, DataPacket, Serialize, OS.CanSend, OS.SenderIs;
    var s := OP.Fresh(start);
    assert OP.Init(s);
    OP.InitInv(c, s);
    steps, f := OptTurn.FillRuns(c, s, 0);
    SenderOfInv(c, s);
    SenderOfInv(c, f);
    OS.FillKeeps(c.file, c.sendWindow, s.sender, {}, 0);
    SenderAtRest(c, f);
    var sent := OS.Fill(c.file, c.sendWindow, s.sender, 0).1;
    forall i: u32 | i < f.sender.dataSeqNum
      ensures Sent(DataPacket(c.file, i)) in f.data
    {
      assert DataBytes(c.file, i) in sent;
    }
  }

  /** README.md asks that the opt receiver drop numbers a window or more above the first one
      missing. Whenever the sender's window is longer, and the file longer than the
      receiver's, there is a reachable state in which such a packet is under way, none has
      been received, and it will be stored and acknowledged. */
  lemma BeyondWindowIsStored(c: Config, start: u32) returns (s: OP.System)
    requires c.Valid() && 1 <= c.recvWindow < c.sendWindow && c.recvWindow < NumChunks(c.file)
    ensures OP.Reachable(c, s)
    ensures NextMissing(s.receiver.received.Keys, 0) == 0
    ensures var f := Sent(DataPacket(c.file, c.recvWindow));
            && f in s.data
            && OptReceiver.OnDatagram(c.recvWindow, s.receiver, f.bytes).Ok?
            && var r := OptReceiver.OnDatagram(c.recvWindow, s.receiver, f.bytes).value;
               r.ack == Some(c.recvWindow) && OP.Stored(c.file, r.state, c.recvWindow)
  {
    hide OP.Inv, OP.Reaches, OptReceiver.OnDatagram, Carries, Sent, DataPacket, OP.Stored;
    var steps;
    steps, s := OptFillFresh(c, start);
    assert OP.Init(OP.Fresh(start));
    SentCarries(c.file, c.recvWindow);
    SentUndamaged(DataPacket(c.file, c.recvWindow));
    OP.DataArrives(c, s.receiver, c.recvWindow, Sent(DataPacket(c.file, c.recvWindow)));
  }
}
