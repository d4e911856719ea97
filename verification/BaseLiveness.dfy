/** When the base transfer can still finish. The receiver answers no packet it has already
    delivered, so the transfer hangs for good once everything sent has been delivered, no
    more may be sent, and no ACK that would help is left in the network. That is the only
    way: from every other reachable state the network can let it finish. */
module BaseLiveness {
  import opened Wire
  import opened Chunks
  import opened BaseSender
  import opened BaseReceiver
  import opened Network
  import opened BaseProtocol

  predicate Done(c: Config, s: System) {
    !Running(c.file, s.sender)
  }

  ghost predicate AckAbove(d: seq<byte>, lo: int) {
    exists a: u32 :: a > lo && IsAckDatagram(d, a)
  }

  /** An ACK with a number above lo is in the network. */
  ghost predicate AckUnderWay(s: System, lo: int) {
    exists d :: d in s.acks && AckAbove(d, lo)
  }

  ghost predicate Finishable(c: Config, s: System) {
    var base, sent, n := Base(s.sender), s.sender.dataSeqNum, NumChunks(c.file);
    || base == n                                                    // all is acknowledged
    || s.receiver.nextSeq < sent                                    // something sent is awaited
    || (sent < n && sent - base < c.sendWindow)                     // something may be sent
    || (sent < n && AckUnderWay(s, base))                           // the window will open
    || (sent == n && AckUnderWay(s, n - 1))                         // the last ACK may arrive
  }

  // ---- Runs ----

  lemma {:induction false} ReachesTrans(c: Config, s: System, xs: seq<Step>, t: System, ys: seq<Step>, u: System)
    requires Reaches(c, s, xs, t) && Reaches(c, t, ys, u)
    ensures Reaches(c, s, xs + ys, u)
    decreases |xs|
  {
    hide Enabled, Apply;
    if xs == [] {
      assert xs + ys == ys;
    } else {
      assert (xs + ys)[1..] == xs[1..] + ys;
      ReachesTrans(c, Apply(c, s, xs[0]), xs[1..], t, ys, u);
    }
  }

  lemma OneStep(c: Config, s: System, step: Step)
    requires Enabled(c, s, step)
    ensures Reaches(c, s, [step], Apply(c, s, step))
  {
    hide Enabled, Apply;
    assert Reaches(c, Apply(c, s, step), [], Apply(c, s, step));
  }

  // ---- From a hung state nothing helps ----

  // An ACK that is not above lo moves the base to lo at most.
  lemma HarmlessAck(c: Config, s: System, d: seq<byte>, lo: int)
    requires c.Valid() && Inv(c, s) && Enabled(c, s, DeliverAck(d))
    requires !AckAbove(d, lo) && lo >= Base(s.sender)
    ensures var t := Apply(c, s, DeliverAck(d));
            && t.receiver == s.receiver && t.acks == s.acks
            && t.sender.dataSeqNum == s.sender.dataSeqNum
            && Base(s.sender) <= Base(t.sender) <= lo
  {
    hide SenderOk, OnAck, Hear, FlightOk, IsAckDatagram;
    var a: u32 :| a <= s.receiver.nextSeq && IsAckDatagram(d, a);
    ListeningHasWindow(c, s.sender);
    AckMovesBase(c.file, c.sendWindow, s.sender, a);
    AckArrives(c, s, d, a);
  }

  lemma DeliveredDataIgnored(c: Config, s: System, f: Flight, ack: seq<byte>)
    requires c.Valid() && Inv(c, s) && Enabled(c, s, DeliverData(f, ack))
    requires s.receiver.nextSeq == s.sender.dataSeqNum
    ensures Apply(c, s, DeliverData(f, ack)) == s
  {
    hide SenderOk, Carries, OnDatagram, ReceiverOk, AckOk;
    var i: u32 :| i < s.sender.dataSeqNum && Carries(c.file, i, f);
    SenderBounds(c, s.sender);
    DataArrives(c, s.before, s.receiver, i, f);
  }

  lemma SendBounds(c: Config, s: SenderState)
    requires SenderOk(c.file, c.sendWindow, s)
    ensures CanSend(c.file, c.sendWindow, s) <==>
            s.dataSeqNum < NumChunks(c.file) && s.dataSeqNum - Base(s) < c.sendWindow
    ensures Running(c.file, s) <==> Base(s) < NumChunks(c.file)
  {
    ChunkSizes(c.file, s.dataSeqNum);
  }

  lemma HungStays(c: Config, s: System, step: Step)
    requires c.Valid() && Inv(c, s) && !Finishable(c, s) && Enabled(c, s, step)
    ensures !Finishable(c, Apply(c, s, step))
  {
    hide SenderOk, ReceiverOk, FlightOk, AckOk, Hear, Receive, AckAbove;
    SenderBounds(c, s.sender);
    match step
    case Send => SendBounds(c, s.sender);
    case Timeout => TimeoutResends(c, s);
    case DeliverAck(d) =>
      var n := NumChunks(c.file);
      HarmlessAck(c, s, d, if s.sender.dataSeqNum < n then Base(s.sender) else n - 1);
    case DeliverData(f, ack) => DeliveredDataIgnored(c, s, f, ack);
    case DeliverStart(d) => StartIgnored(c, s, d);
    case LoseData(f) =>
    case LoseAck(d) =>
    case Damage(f, payload) =>
  }

  lemma HungIsNotDone(c: Config, s: System)
    requires Inv(c, s) && !Finishable(c, s)
    ensures !Done(c, s)
  {
    hide SenderOk, FlightOk, AckOk;
    SendBounds(c, s.sender);
  }

  lemma {:induction false} HungForever(c: Config, s: System, steps: seq<Step>, t: System)
    requires c.Valid() && Inv(c, s) && !Finishable(c, s) && Reaches(c, s, steps, t)
    ensures !Done(c, t)
    decreases |steps|
  {
    hide Inv, Finishable, Enabled, Apply;
    if steps == [] {
      HungIsNotDone(c, s);
    } else {
      HungStays(c, s, steps[0]);
      StepKeepsInv(c, s, steps[0]);
      HungForever(c, Apply(c, s, steps[0]), steps[1..], t);
    }
  }

  // ---- From every other state there is a way ----

  /** Packets still to send, to deliver and to acknowledge. */
  function Remaining(c: Config, s: System): int {
    3 * NumChunks(c.file) - s.sender.dataSeqNum - s.receiver.nextSeq - Base(s.sender)
  }

  /** A packet the receiver awaits, arriving undamaged: delivered and acknowledged. */
  lemma DeliverAwaited(c: Config, s: System, f: Flight) returns (ack: seq<byte>, t: System)
    requires c.Valid() && c.recvWindow >= 1 && Inv(c, s)
    requires s.receiver.nextSeq < s.sender.dataSeqNum
    requires f == Sent(DataPacket(c.file, s.receiver.nextSeq)) && f in s.data
    ensures Enabled(c, s, DeliverData(f, ack)) && t == Apply(c, s, DeliverData(f, ack))
    ensures t.sender == s.sender && t.receiver.nextSeq == s.receiver.nextSeq + 1 && t.data == s.data
    ensures t.receiver.counter == s.receiver.counter
    ensures s.acks <= t.acks && ack in t.acks && IsAckDatagram(ack, t.receiver.nextSeq)
  {
    hide SenderOk, Carries, OnDatagram, FlightOk, AckOk, IsAckDatagram, Sent;
    SenderBounds(c, s.sender);
    SentCarries(c.file, s.receiver.nextSeq);
    SentUndamaged(DataPacket(c.file, s.receiver.nextSeq));
    DataArrives(c, s.before, s.receiver, s.receiver.nextSeq, f);
    ack := AckBytes(s.receiver.nextSeq + 1);
    t := Apply(c, s, DeliverData(f, ack));
  }

  lemma AwaitedIsInWindow(c: Config, s: System)
    requires Inv(c, s) && s.receiver.nextSeq < s.sender.dataSeqNum
    ensures 0 <= s.receiver.nextSeq
    ensures Sent(DataPacket(c.file, s.receiver.nextSeq)) in SentAll(s.sender.window)
  {
    hide DataPacket, Sent, FlightOk, AckOk;
    var k := s.receiver.nextSeq - Base(s.sender);
    PacketAt(c.file, s.sender.dataSeqNum, s.receiver.nextSeq);
    assert s.sender.window[k] in s.sender.window;
  }

  // Time out, and let the awaited packet through.
  lemma ResendAwaited(c: Config, s: System) returns (steps: seq<Step>, t: System)
    requires c.Valid() && c.recvWindow >= 1 && Inv(c, s)
    requires Listening(c, s.sender) && s.receiver.nextSeq < s.sender.dataSeqNum
    ensures Reaches(c, s, steps, t) && Inv(c, t) && Finishable(c, t)
    ensures Remaining(c, t) < Remaining(c, s)
  {
    hide SenderOk, ReceiverOk, FlightOk, AckOk, Hear, SentAll, IsAckDatagram, Receive, Reaches, DataPacket;
    var u := Apply(c, s, Timeout);
    OneStep(c, s, Timeout);
    StepKeepsInv(c, s, Timeout);
    TimeoutResends(c, s);
    AwaitedIsInWindow(c, s);
    var f := Sent(DataPacket(c.file, s.receiver.nextSeq));
    var ack;
    ack, t := DeliverAwaited(c, u, f);
    OneStep(c, u, DeliverData(f, ack));
    StepKeepsInv(c, u, DeliverData(f, ack));
    steps := [Timeout] + [DeliverData(f, ack)];
    ReachesTrans(c, s, [Timeout], u, [DeliverData(f, ack)], t);
    SenderBounds(c, s.sender);
    ListeningHasWindow(c, s.sender);
    assert AckAbove(ack, t.receiver.nextSeq - 1);
    assert AckAbove(ack, Base(t.sender));
  }

  lemma NotFaulted(c: Config, s: System)
    requires Inv(c, s)
    ensures !s.faulted
  {
  }

  lemma HearAbove(c: Config, s: System, d: seq<byte>, lo: int)
    requires c.Valid() && Inv(c, s) && Enabled(c, s, DeliverAck(d)) && AckAbove(d, lo) && lo >= Base(s.sender)
    ensures var t := Apply(c, s, DeliverAck(d));
            && Inv(c, t) && t.sender.dataSeqNum == s.sender.dataSeqNum && t.receiver == s.receiver
            && Base(t.sender) > lo
  {
    hide SenderOk, OnAck, Hear, FlightOk, IsAckDatagram;
    var b: u32 :| b > lo && IsAckDatagram(d, b);
    var a: u32 :| a <= s.receiver.nextSeq && IsAckDatagram(d, a);
    AckNumberUnique(d, a, b);
    ListeningHasWindow(c, s.sender);
    AckMovesBase(c.file, c.sendWindow, s.sender, a);
    AckArrives(c, s, d, a);
    AckKeepsInv(c, s, d);
  }

  lemma HearAckAbove(c: Config, s: System, lo: int) returns (steps: seq<Step>, t: System)
    requires c.Valid() && Inv(c, s) && Listening(c, s.sender) && AckUnderWay(s, lo) && lo >= Base(s.sender)
    ensures Reaches(c, s, steps, t) && Inv(c, t)
    ensures t.sender.dataSeqNum == s.sender.dataSeqNum && t.receiver == s.receiver
    ensures Base(t.sender) > lo
  {
    hide Inv, Hear, AckAbove, Reaches;
    var d :| d in s.acks && AckAbove(d, lo);
    NotFaulted(c, s);
    HearAbove(c, s, d, lo);
    OneStep(c, s, DeliverAck(d));
    steps, t := [DeliverAck(d)], Apply(c, s, DeliverAck(d));
  }

  lemma MakeProgress(c: Config, s: System) returns (steps: seq<Step>, t: System)
    requires c.Valid() && c.recvWindow >= 1 && Inv(c, s) && Finishable(c, s) && !Done(c, s)
    ensures Reaches(c, s, steps, t) && Inv(c, t) && Finishable(c, t)
    ensures Remaining(c, t) < Remaining(c, s)
  {
    hide SenderOk, ReceiverOk, FlightOk, AckOk, AckUnderWay, SendChunk, Reaches;
    SendBounds(c, s.sender);
    SenderBounds(c, s.sender);
    var n := NumChunks(c.file);
    if CanSend(c.file, c.sendWindow, s.sender) {
      SendChunkKeeps(c.file, c.sendWindow, s.sender);
      StepKeepsInv(c, s, Send);
      OneStep(c, s, Send);
      steps, t := [Send], Apply(c, s, Send);
    } else if s.receiver.nextSeq < s.sender.dataSeqNum {
      steps, t := ResendAwaited(c, s);
    } else {
      steps, t := HearAckAbove(c, s, if s.sender.dataSeqNum < n then Base(s.sender) else n - 1);
      SenderBounds(c, t.sender);
    }
  }

  lemma RemainingNat(c: Config, s: System)
    requires Inv(c, s)
    ensures Remaining(c, s) >= 0
  {
    hide SenderOk, FlightOk, AckOk;
    SenderBounds(c, s.sender);
  }

  lemma AtOnce(c: Config, s: System)
    ensures Reaches(c, s, [], s)
  {
  }

  lemma {:induction false} Finish(c: Config, s: System) returns (steps: seq<Step>, t: System)
    requires c.Valid() && c.recvWindow >= 1 && Inv(c, s) && Finishable(c, s)
    ensures Reaches(c, s, steps, t) && Done(c, t)
    decreases Remaining(c, s) + 1
  {
    hide Finishable, Reaches, SenderOk, ReceiverOk, FlightOk, AckOk;
    if Done(c, s) {
      steps, t := [], s;
      AtOnce(c, s);
    } else {
      RemainingNat(c, s);
      var xs, u := MakeProgress(c, s);
      var ys;
      ys, t := Finish(c, u);
      steps := xs + ys;
      ReachesTrans(c, s, xs, u, ys, t);
    }
  }

  /** From a reachable state the transfer can be completed iff it is not hung. */
  lemma CompletesIffFinishable(c: Config, s: System)
    requires c.Valid() && c.recvWindow >= 1 && Reachable(c, s)
    ensures (exists steps, t :: Reaches(c, s, steps, t) && Done(c, t)) <==> Finishable(c, s)
  {
    hide Inv, Finishable, Reaches, Done;
    ReachableInv(c, s);
    if Finishable(c, s) {
      var steps, t := Finish(c, s);
    } else {
      forall steps, t | Reaches(c, s, steps, t)
        ensures !Done(c, t)
      {
        HungForever(c, s, steps, t);
      }
    }
  }

  // ---- The hang happens ----

  /** The first connection of a receiver, opened by a START with this number. */
  function Fresh(start: u32): System {
    System(INITIAL, ReceiverState(true, 0, 0, ToInt32(start), map[], map[]), [], {}, {}, false)
  }

  lemma ReceiveKeepsSender(c: Config, s: System, d: seq<byte>, ack: seq<byte>)
    ensures Receive(c, s, d, ack).sender == s.sender
  {
    hide OnDatagram;
  }

  /** Only a Send counts dataSeqNum up, and none of the three numbers ever falls. */
  lemma NumbersGrow(c: Config, s: System, step: Step)
    requires c.Valid() && Inv(c, s) && Enabled(c, s, step)
    ensures var t := Apply(c, s, step);
            && t.sender.dataSeqNum == s.sender.dataSeqNum + (if step.Send? then 1 else 0)
            && Base(s.sender) <= Base(t.sender)
            && s.receiver.nextSeq <= t.receiver.nextSeq
            && (step.Send? ==> t.receiver == s.receiver)
  {
    hide SenderOk, ReceiverOk, FlightOk, AckOk, Hear, Receive, SendChunk, IsAckDatagram;
    StepKeepsInv(c, s, step);
    match step
    case Send => SendChunkKeeps(c.file, c.sendWindow, s.sender);
    case Timeout => TimeoutResends(c, s);
    case DeliverAck(d) => HarmlessAck(c, s, d, TWO32);
    case DeliverData(f, ack) => ReceiveKeepsSender(c, s, f.bytes, ack);
    case DeliverStart(d) => ReceiveKeepsSender(c, s, d, []);
    case LoseData(f) =>
    case LoseAck(d) =>
    case Damage(f, payload) =>
  }

  // The step that ends the transfer hears the ACK of the last packet.
  lemma LastStepHearsLastAck(c: Config, s: System, step: Step)
    requires c.Valid() && Inv(c, s) && Enabled(c, s, step)
    requires !Done(c, s) && Done(c, Apply(c, s, step))
    ensures s.receiver.nextSeq == NumChunks(c.file)
  {
    hide SenderOk, ReceiverOk, FlightOk, AckOk, Hear, Receive, SendChunk, IsAckDatagram;
    StepKeepsInv(c, s, step);
    var t := Apply(c, s, step);
    SendBounds(c, s.sender);
    SendBounds(c, t.sender);
    SenderBounds(c, t.sender);
    match step
    case Send => SendChunkKeeps(c.file, c.sendWindow, s.sender);
    case Timeout => TimeoutResends(c, s);
    case DeliverAck(d) => HarmlessAck(c, s, d, TWO32);
    case DeliverData(f, ack) => ReceiveKeepsSender(c, s, f.bytes, ack);
    case DeliverStart(d) => ReceiveKeepsSender(c, s, d, []);
    case LoseData(f) =>
    case LoseAck(d) =>
    case Damage(f, payload) =>
  }

  lemma {:induction false} StateBeforeDone(c: Config, s: System, steps: seq<Step>, t: System)
    returns (xs: seq<Step>, u: System)
    requires c.Valid() && Inv(c, s) && !Done(c, s) && Reaches(c, s, steps, t) && Done(c, t)
    ensures Reaches(c, s, xs, u) && Inv(c, u) && !Done(c, u)
    ensures u.receiver.nextSeq == NumChunks(c.file)
    decreases |steps|
  {
    hide Inv, Done, Enabled, Apply;
    var v := Apply(c, s, steps[0]);
    if Done(c, v) {
      LastStepHearsLastAck(c, s, steps[0]);
      AtOnce(c, s);
      xs, u := [], s;
    } else {
      StepKeepsInv(c, s, steps[0]);
      var ys;
      ys, u := StateBeforeDone(c, v, steps[1..], t);
      xs := [steps[0]] + ys;
      assert xs[1..] == ys;
    }
  }

  lemma {:induction false} LoseAllAcks(c: Config, s: System) returns (steps: seq<Step>)
    requires !s.faulted
    ensures Reaches(c, s, steps, s.(acks := {}))
    decreases |s.acks|
  {
    if s.acks == {} {
      AtOnce(c, s);
      steps := [];
      assert s.(acks := {}) == s;
    } else {
      var d :| d in s.acks;
      var t := Apply(c, s, LoseAck(d));
      OneStep(c, s, LoseAck(d));
      assert |t.acks| == |s.acks| - 1;
      var ys := LoseAllAcks(c, t);
      assert t.(acks := {}) == s.(acks := {});
      steps := [LoseAck(d)] + ys;
      ReachesTrans(c, s, [LoseAck(d)], t, ys, s.(acks := {}));
    }
  }

  lemma OutputAt(c: Config, s: System)
    requires Inv(c, s)
    ensures Output(s) == s.before + c.file[..Offset(c.file, s.receiver.nextSeq)]
  {
    hide SenderOk, FlightOk, AckOk;
  }

  lemma HungAfterLoss(c: Config, s: System)
    requires Inv(c, s) && !Done(c, s) && s.receiver.nextSeq == NumChunks(c.file)
    ensures !s.faulted
    ensures Inv(c, s.(acks := {})) && !Finishable(c, s.(acks := {}))
    ensures c.file[..Offset(c.file, s.receiver.nextSeq)] == c.file
  {
    hide SenderOk, ReceiverOk, FlightOk, AckOk;
    SendBounds(c, s.sender);
    SenderBounds(c, s.sender);
    ChunkSizes(c.file, s.receiver.nextSeq);
  }

  lemma FreshCanFinish(c: Config, start: u32)
    requires c.Valid() && c.file != []
    ensures Init(Fresh(start)) && Inv(c, Fresh(start)) && Finishable(c, Fresh(start)) && !Done(c, Fresh(start))
  {
    InitInv(c, Fresh(start));
  }

  /** Whatever the file and the windows: if the last ACKs are lost after the whole file has
      been delivered, the transfer hangs. */
  lemma EveryTransferCanHang(c: Config, start: u32) returns (s: System)
    requires c.Valid() && c.recvWindow >= 1 && c.file != []
    ensures Reachable(c, s) && Output(s) == c.file
    ensures s.receiver.nextSeq == NumChunks(c.file) && s.acks == {} && s.receiver.startAck == ToInt32(start)
    ensures forall steps, t | Reaches(c, s, steps, t) :: !Done(c, t)
  {
    hide Reaches, Inv, Finishable, Done;
    FreshCanFinish(c, start);
    var steps, t := Finish(c, Fresh(start));
    var xs, u := StateBeforeDone(c, Fresh(start), steps, t);
    HungAfterLoss(c, u);
    var ys := LoseAllAcks(c, u);
    s := u.(acks := {});
    ReachesTrans(c, Fresh(start), xs, u, ys, s);
    assert Init(Fresh(start));
    RunKeepsInv(c, Fresh(start), xs, u);
    OutputAt(c, s);
    forall zs, v | Reaches(c, s, zs, v)
      ensures !Done(c, v)
    {
      HungForever(c, s, zs, v);
    }
  }
}
