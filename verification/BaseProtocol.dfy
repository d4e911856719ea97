/** The base sender and receiver joined by a network that loses, repeats, reorders and
    damages what is sent, from the moment startConnection succeeds. Every datagram stays in
    the network until it is lost, so it can arrive any number of times, in any order. */
module BaseProtocol {
  import opened Wire
  import opened Chunks
  import opened Network
  import opened BaseSender
  import opened BaseReceiver

  /** before is a history variable: what the receiver's file held when the run began. */
  datatype System = System(
    sender: SenderState,
    receiver: ReceiverState,
    before: seq<byte>,
    data: set<Flight>,
    acks: set<seq<byte>>,
    faulted: bool)

  datatype Step =
    | Send
    | Timeout
    | DeliverAck(d: seq<byte>)
    | DeliverData(f: Flight, ack: seq<byte>) // ack is the datagram sent back, if one is
    | DeliverStart(d: seq<byte>)             // a repeated START
    | LoseData(f: Flight)
    | LoseAck(d: seq<byte>)
    | Damage(f: Flight, payload: seq<byte>)

  function SentAll(ps: seq<Packet>): set<Flight> {
    set p | p in ps :: Sent(p)
  }

  /** The sender is at receiveAck: there is more to do, but nothing it may send now. */
  predicate Listening(c: Config, s: SenderState) {
    Running(c.file, s) && !CanSend(c.file, c.sendWindow, s)
  }

  ghost predicate Enabled(c: Config, s: System, step: Step) {
    !s.faulted &&
    match step
    case Send => CanSend(c.file, c.sendWindow, s.sender)
    case Timeout => Listening(c, s.sender)
    case DeliverAck(d) => Listening(c, s.sender) && d in s.acks
    case DeliverData(f, ack) => f in s.data && AckIs(OnDatagram(c.recvWindow, s.receiver, f.bytes), ack)
    case DeliverStart(d) =>
      var p := ParsePacket1(Truncate(d, RECV_BUFFER));
      p.Ok? && p.value.header.typ == START
    case LoseData(f) => f in s.data
    case LoseAck(d) => d in s.acks
    case Damage(f, payload) =>
      f in s.data && !f.damaged && |f.bytes| >= HEADER_SIZE && Burst(f.bytes[HEADER_SIZE..], payload)
  }

  /** One turn of sendData's outer loop from receiveAck on. */
  function Hear(s: System, reply: Reply): System {
    match ReceiveAck(reply)
    case Err(_) => s.(faulted := true)
    case Ok(p) =>
      match OnReply(s.sender, p)
      case Err(_) => s.(faulted := true)
      case Ok(t) => s.(sender := t, data := s.data + SentAll(Resent(s.sender, p)))
  }

  /** One turn of startReceiving's loop. */
  function Receive(c: Config, s: System, d: seq<byte>, ack: seq<byte>): System {
    match OnDatagram(c.recvWindow, s.receiver, d)
    case Err(_) => s.(faulted := true)
    case Ok(r) => s.(receiver := r.state, acks := if r.ack.Some? then s.acks + {ack} else s.acks)
  }

  ghost function Apply(c: Config, s: System, step: Step): System
    requires Enabled(c, s, step)
  {
    match step
    case Send =>
      s.(sender := SendChunk(c.file, s.sender),
         data := s.data + {Sent(NextPacket(c.file, s.sender.offset, s.sender.dataSeqNum))})
    case Timeout => Hear(s, NoReply)
    case DeliverAck(d) => Hear(s, Datagram(d))
    case DeliverData(f, ack) => Receive(c, s, f.bytes, ack)
    case DeliverStart(d) => Receive(c, s, d, [])
    case LoseData(f) => s.(data := s.data - {f})
    case LoseAck(d) => s.(acks := s.acks - {d})
    case Damage(f, payload) => s.(data := s.data + {Flight(f.bytes[..HEADER_SIZE] + payload, true)})
  }

  /** What has been written to the file of the current connection. */
  function Output(s: System): seq<byte> {
    Contents(s.receiver.files, s.receiver.counter)
  }

  /** startConnection has succeeded: nothing is under way, and the receiver has just opened
      the connection. Its map and its file may hold anything. */
  predicate Init(s: System) {
    && s.sender == INITIAL
    && s.receiver.connection && s.receiver.nextSeq == 0
    && s.before == Output(s)
    && s.data == {} && s.acks == {} && !s.faulted
  }

  /** The steps lead from s to t, each enabled in its turn. */
  ghost predicate Reaches(c: Config, s: System, steps: seq<Step>, t: System)
    decreases |steps|
  {
    if steps == [] then s == t
    else Enabled(c, s, steps[0]) && Reaches(c, Apply(c, s, steps[0]), steps[1..], t)
  }

  ghost predicate Reachable(c: Config, s: System) {
    exists s0: System, steps: seq<Step> :: Init(s0) && Reaches(c, s0, steps, s)
  }

  // ---- The invariant ----

  ghost predicate AckOk(nextSeq: int, d: seq<byte>) {
    exists a: u32 :: a <= nextSeq && IsAckDatagram(d, a)
  }

  ghost predicate ReceiverOk(file: seq<byte>, before: seq<byte>, r: ReceiverState) {
    && r.connection && 0 <= r.nextSeq <= NumChunks(file)
    && Contents(r.files, r.counter) == before + file[..Offset(file, r.nextSeq)]
  }

  /** What couples the two ends and everything between them. */
  ghost predicate Inv(c: Config, s: System) {
    && !s.faulted
    && SenderOk(c.file, c.sendWindow, s.sender)
    && ReceiverOk(c.file, s.before, s.receiver)
    && Base(s.sender) <= s.receiver.nextSeq <= s.sender.dataSeqNum
    && (forall f | f in s.data :: FlightOk(c.file, s.sender.dataSeqNum, f))
    && (forall d | d in s.acks :: AckOk(s.receiver.nextSeq, d))
  }

  lemma AckStaysOk(n: int, m: int, d: seq<byte>)
    requires AckOk(n, d) && n <= m
    ensures AckOk(m, d)
  {
    hide IsAckDatagram;
    var a: u32 :| a <= n && IsAckDatagram(d, a);
    assert a <= m;
  }

  // ---- The sender's steps ----

  lemma SendKeepsInv(c: Config, s: System)
    requires c.Valid() && Inv(c, s) && Enabled(c, s, Send)
    ensures Inv(c, Apply(c, s, Send))
  {
    hide CrcU32, NextPacket, DataPacket, SendChunk, Offset, Sent, FlightOk, AckOk;
    SendChunkKeeps(c.file, c.sendWindow, s.sender);
    NextIsDataPacket(c.file, s.sender.dataSeqNum);
    var n: u32 := s.sender.dataSeqNum;
    var t := Apply(c, s, Send);
    forall f | f in t.data
      ensures FlightOk(c.file, t.sender.dataSeqNum, f)
    {
      if f in s.data {
        FlightStaysOk(c.file, n, n + 1, f);
      } else {
        SentIsOk(c.file, n, n + 1);
      }
    }
  }

  lemma WindowFlightsOk(c: Config, s: SenderState, f: Flight)
    requires SenderOk(c.file, c.sendWindow, s) && f in SentAll(s.window)
    ensures FlightOk(c.file, s.dataSeqNum, f)
  {
    hide Sent, DataPacket, FlightOk;
    var p :| p in s.window && f == Sent(p);
    var k :| 0 <= k < |s.window| && s.window[k] == p;
    PacketAt(c.file, s.dataSeqNum, Base(s) + k);
    SentIsOk(c.file, Base(s) + k, s.dataSeqNum);
  }

  /** Retransmitting puts the window on the network and changes nothing else. */
  lemma TimeoutResends(c: Config, s: System)
    ensures Hear(s, NoReply) == s.(data := s.data + SentAll(s.sender.window))
  {
    hide MakePacket, SentAll;
    TimeoutReply();
  }

  lemma TimeoutKeepsInv(c: Config, s: System)
    requires Inv(c, s)
    ensures Inv(c, Hear(s, NoReply))
  {
    hide Hear, SentAll, SenderOk, FlightOk, AckOk;
    TimeoutResends(c, s);
    forall f | f in SentAll(s.sender.window)
      ensures FlightOk(c.file, s.sender.dataSeqNum, f)
    {
      WindowFlightsOk(c, s.sender, f);
    }
  }

  /** An ACK of the receiver parses to its number, passes isAckValid, and moves the window. */
  lemma AckArrives(c: Config, s: System, d: seq<byte>, a: u32)
    requires SenderOk(c.file, c.sendWindow, s.sender) && s.sender.window != []
    requires a <= s.sender.dataSeqNum && IsAckDatagram(d, a)
    ensures OnAck(s.sender, a).Ok?
    ensures Hear(s, Datagram(d)) == s.(sender := OnAck(s.sender, a).value)
  {
    hide SenderOk, CrcU32, ReceiveAckBytes, OnAck;
    AckRoundTrip(d, a);
    AckMovesBase(c.file, c.sendWindow, s.sender, a);
    assert SentAll([]) == {};
  }

  lemma ListeningHasWindow(c: Config, s: SenderState)
    requires c.Valid() && Listening(c, s)
    ensures s.window != []
  {
  }

  lemma AckKeepsInv(c: Config, s: System, d: seq<byte>)
    requires c.Valid() && Inv(c, s) && Enabled(c, s, DeliverAck(d))
    ensures Inv(c, Apply(c, s, DeliverAck(d)))
  {
    hide SenderOk, OnAck, Hear, FlightOk, IsAckDatagram;
    var a: u32 :| a <= s.receiver.nextSeq && IsAckDatagram(d, a);
    ListeningHasWindow(c, s.sender);
    AckMovesBase(c.file, c.sendWindow, s.sender, a);
    AckArrives(c, s, d, a);
  }

  /** An ACK from elsewhere, such as the START ACK come a second time, is harmless iff its
      number is no higher than next_seq. Above that the sender drops packets not delivered,
      or pops an empty deque. This is why a run has no such step. */
  lemma StrayAckSafeIff(c: Config, s: System, d: seq<byte>, a: u32)
    requires c.Valid() && Inv(c, s) && Listening(c, s.sender) && IsAckDatagram(d, a)
    ensures Inv(c, Hear(s, Datagram(d))) <==> a <= s.receiver.nextSeq
    ensures Hear(s, Datagram(d)).faulted <==> a > s.sender.dataSeqNum
  {
    hide SenderOk, FlightOk, AckOk, ReceiverOk, OnAck, HeaderBytes, ReceiveAckBytes, CrcU32;
    ListeningHasWindow(c, s.sender);
    if a <= s.sender.dataSeqNum {
      AckMovesBase(c.file, c.sendWindow, s.sender, a);
      AckArrives(c, s, d, a);
    } else {
      AckRoundTrip(d, a);
      PopFaultsIffUnsent(c.file, c.sendWindow, s.sender, a);
    }
  }

  // ---- The receiver's steps ----

  /** The connection goes on: only its own file has changed, and next_seq has not fallen. */
  predicate SameConnection(r: ReceiverState, q: ReceiverState) {
    && q.connection == r.connection && q.counter == r.counter && q.startAck == r.startAck
    && q.files - {r.counter} == r.files - {r.counter}
    && r.nextSeq <= q.nextSeq
  }

  /** What the receiver makes of DATA packet i, sound or damaged. */
  lemma DataArrives(c: Config, before: seq<byte>, s: ReceiverState, i: u32, f: Flight)
    requires c.Valid() && i < NumChunks(c.file) && ReceiverOk(c.file, before, s) && Carries(c.file, i, f)
    ensures OnDatagram(c.recvWindow, s, f.bytes).Ok?
    ensures var r := OnDatagram(c.recvWindow, s, f.bytes).value;
            var inWindow := s.nextSeq <= i < s.nextSeq + c.recvWindow;
            && ReceiverOk(c.file, before, r.state)
            && SameConnection(s, r.state)
            && r.state.nextSeq == (if r.ack.Some? && i == s.nextSeq then s.nextSeq + 1 else s.nextSeq)
            && (r.ack.Some? ==> inWindow && r.ack.value == r.state.nextSeq)
            && (inWindow && !f.damaged ==> r.ack.Some?)
            && (r.ack.None? ==> r.state == s)
  {
    hide Carries, CrcU32, ParsePacket1, Chunk;
    var p := FlightParses(c.file, i, f);
    DataStep(c.recvWindow, s, p);
    PacketKeepsConnection(c.recvWindow, s, p);
    SmallConversions(i);
    if ChecksumOk(p) && i == s.nextSeq {
      assert c.file[..Offset(c.file, i + 1)] == c.file[..Offset(c.file, i)] + Chunk(c.file, i) by {
        ConcatIsPrefix(c.file, i);
        ConcatIsPrefix(c.file, i + 1);
      }
      assert before + c.file[..Offset(c.file, i)] + Chunk(c.file, i)
          == before + (c.file[..Offset(c.file, i)] + Chunk(c.file, i));
      SmallConversions(i + 1);
    } else {
      SmallConversions(s.nextSeq);
    }
  }

  lemma SenderBounds(c: Config, s: SenderState)
    requires SenderOk(c.file, c.sendWindow, s)
    ensures 0 <= Base(s) <= s.dataSeqNum <= NumChunks(c.file)
    ensures s.dataSeqNum <= Base(s) + c.sendWindow
  {
  }

  lemma DataKeepsInv(c: Config, s: System, f: Flight, ack: seq<byte>)
    requires c.Valid() && Inv(c, s) && Enabled(c, s, DeliverData(f, ack))
    ensures Inv(c, Apply(c, s, DeliverData(f, ack)))
    ensures Apply(c, s, DeliverData(f, ack)).before == s.before
    ensures SameConnection(s.receiver, Apply(c, s, DeliverData(f, ack)).receiver)
  {
    hide SenderOk, Carries, OnDatagram, ReceiverOk, IsAckDatagram;
    var i: u32 :| i < s.sender.dataSeqNum && Carries(c.file, i, f);
    SenderBounds(c, s.sender);
    DataArrives(c, s.before, s.receiver, i, f);
    var t := Apply(c, s, DeliverData(f, ack));
    forall d | d in t.acks
      ensures AckOk(t.receiver.nextSeq, d)
    {
      if d in s.acks {
        AckStaysOk(s.receiver.nextSeq, t.receiver.nextSeq, d);
      } else {
        assert IsAckDatagram(d, OnDatagram(c.recvWindow, s.receiver, f.bytes).value.ack.value);
      }
    }
  }

  /** A START in the middle of a connection is ignored. */
  lemma StartIgnored(c: Config, s: System, d: seq<byte>)
    requires Inv(c, s) && Enabled(c, s, DeliverStart(d))
    ensures Apply(c, s, DeliverStart(d)) == s
  {
    hide SenderOk, FlightOk, AckOk, ParsePacket1, OnData;
  }

  lemma DamageKeepsInv(c: Config, s: System, f: Flight, payload: seq<byte>)
    requires Inv(c, s) && Enabled(c, s, Damage(f, payload))
    ensures Inv(c, Apply(c, s, Damage(f, payload)))
  {
    hide SenderOk, AckOk, HeaderBytes, Burst, DataPacket;
    var i: u32 :| i < s.sender.dataSeqNum && Carries(c.file, i, f);
    var g := Flight(f.bytes[..HEADER_SIZE] + payload, true);
    assert g.bytes[..HEADER_SIZE] == f.bytes[..HEADER_SIZE] && g.bytes[HEADER_SIZE..] == payload;
    assert Carries(c.file, i, g);
  }

  // ---- Every run ----

  lemma InitInv(c: Config, s: System)
    requires c.Valid() && Init(s)
    ensures Inv(c, s)
  {
  }

  lemma HearChangesSender(s: System, reply: Reply)
    ensures var t := Hear(s, reply);
            t.receiver == s.receiver && t.before == s.before && t.acks == s.acks
  {
    hide ReceiveAck, OnReply, Resent;
  }

  lemma StepKeepsInv(c: Config, s: System, step: Step)
    requires c.Valid() && Inv(c, s) && Enabled(c, s, step)
    ensures Inv(c, Apply(c, s, step))
    ensures Apply(c, s, step).before == s.before
    ensures SameConnection(s.receiver, Apply(c, s, step).receiver)
  {
    hide SenderOk, ReceiverOk, FlightOk, AckOk, Hear, Receive;
    match step
    case Send => SendKeepsInv(c, s);
    case Timeout =>
      TimeoutKeepsInv(c, s);
      HearChangesSender(s, NoReply);
    case DeliverAck(d) =>
      AckKeepsInv(c, s, d);
      HearChangesSender(s, Datagram(d));
    case DeliverData(f, ack) => DataKeepsInv(c, s, f, ack);
    case DeliverStart(d) => StartIgnored(c, s, d);
    case LoseData(f) =>
    case LoseAck(d) =>
    case Damage(f, payload) => DamageKeepsInv(c, s, f, payload);
  }

  lemma {:induction false} RunKeepsInv(c: Config, s: System, steps: seq<Step>, t: System)
    requires c.Valid() && Inv(c, s) && Reaches(c, s, steps, t)
    ensures Inv(c, t)
    ensures t.before == s.before && SameConnection(s.receiver, t.receiver)
    decreases |steps|
  {
    hide Inv, Enabled, Apply;
    if steps != [] {
      StepKeepsInv(c, s, steps[0]);
      RunKeepsInv(c, Apply(c, s, steps[0]), steps[1..], t);
    }
  }

  lemma ReachableInv(c: Config, s: System)
    requires c.Valid() && Reachable(c, s)
    ensures Inv(c, s)
  {
    hide Inv, Init, Reaches;
    var s0: System, steps: seq<Step> :| Init(s0) && Reaches(c, s0, steps, s);
    InitInv(c, s0);
    RunKeepsInv(c, s0, steps, s);
  }

  // ---- What it means ----

  /** Safety: whatever the network does, neither side leaves its defined behaviour, what has
      been appended to the file is exactly the chunks before next_seq, and when sendData's
      loop exits it is the whole file sent. */
  lemma Safety(c: Config, s: System)
    requires c.Valid() && Reachable(c, s)
    ensures !s.faulted
    ensures 0 <= s.receiver.nextSeq <= NumChunks(c.file)
    ensures Output(s) == s.before + ConcatChunks(c.file, s.receiver.nextSeq)
    ensures Output(s) <= s.before + c.file
    ensures !Running(c.file, s.sender) ==> Output(s) == s.before + c.file
  {
    ReachableInv(c, s);
    ConcatIsPrefix(c.file, s.receiver.nextSeq);
    ExitMeansAllAcked(c.file, c.sendWindow, s.sender);
    ChunkSizes(c.file, s.receiver.nextSeq);
  }

  lemma InitBefore(s: System)
    requires Init(s)
    ensures s.before == Output(s)
  {
  }

  /** So a run appends to what the file held when it began. */
  lemma RunAppends(c: Config, s0: System, steps: seq<Step>, s: System)
    requires c.Valid() && Init(s0) && Reaches(c, s0, steps, s)
    ensures s.before == Output(s0)
    ensures 0 <= s.receiver.nextSeq <= NumChunks(c.file)
    ensures Output(s) == Output(s0) + ConcatChunks(c.file, s.receiver.nextSeq)
    ensures !Running(c.file, s.sender) ==> Output(s) == Output(s0) + c.file
  {
    hide Reaches, Inv, Init;
    InitInv(c, s0);
    RunKeepsInv(c, s0, steps, s);
    InitBefore(s0);
    Safety(c, s);
  }

  /** Every ACK the receiver has ever sent, and not only those still in the network, is for
      packets delivered by now: each was in the network at some state s of the run. */
  lemma AcksEverSent(c: Config, s: System, more: seq<Step>, t: System)
    requires c.Valid() && Reachable(c, s) && Reaches(c, s, more, t)
    ensures forall d | d in s.acks :: AckOk(t.receiver.nextSeq, d)
  {
    hide Reachable, Reaches, FlightOk, AckOk, SenderOk, ReceiverOk;
    ReachableInv(c, s);
    RunKeepsInv(c, s, more, t);
    forall d | d in s.acks
      ensures AckOk(t.receiver.nextSeq, d)
    {
      AckStaysOk(s.receiver.nextSeq, t.receiver.nextSeq, d);
    }
  }

  /** The windows: the sender's is exactly the packets sent and not acknowledged, in order;
      next_seq lies within it; front and pop_front never meet an empty deque; and every ACK
      in the network is for a packet already delivered. */
  lemma CoupledWindows(c: Config, s: System)
    requires c.Valid() && Reachable(c, s)
    ensures 0 <= Base(s.sender) <= s.receiver.nextSeq <= s.sender.dataSeqNum <= Base(s.sender) + c.sendWindow
    ensures forall k | 0 <= k < |s.sender.window| ::
              s.sender.window[k] == DataPacket(c.file, Base(s.sender) + k)
    ensures Listening(c, s.sender) ==> s.sender.window != []
    ensures forall d | d in s.acks :: AckOk(s.receiver.nextSeq, d)
  {
    hide DataPacket, Reachable, FlightOk, AckOk;
    ReachableInv(c, s);
    SenderBounds(c, s.sender);
    forall k | 0 <= k < |s.sender.window|
      ensures s.sender.window[k] == DataPacket(c.file, Base(s.sender) + k)
    {
      PacketAt(c.file, s.sender.dataSeqNum, Base(s.sender) + k);
    }
  }

  /** With a receive window no smaller than the sender's, nothing in flight is ever dropped
      for lying beyond it: an undamaged packet is answered unless it was already delivered. */
  lemma UpperTestNeverFails(c: Config, s: System, f: Flight)
    requires c.Valid() && c.sendWindow <= c.recvWindow
    requires Reachable(c, s) && f in s.data
    ensures exists i: u32 ::
              && i < s.sender.dataSeqNum && i < s.receiver.nextSeq + c.recvWindow
              && Carries(c.file, i, f)
              && OnDatagram(c.recvWindow, s.receiver, f.bytes).Ok?
              && (!f.damaged ==>
                    (OnDatagram(c.recvWindow, s.receiver, f.bytes).value.ack.Some? <==> s.receiver.nextSeq <= i))
  {
    hide SenderOk, Carries, OnDatagram, AckOk;
    ReachableInv(c, s);
    SenderBounds(c, s.sender);
    var i: u32 :| i < s.sender.dataSeqNum && Carries(c.file, i, f);
    DataArrives(c, s.before, s.receiver, i, f);
  }

  /** No sequence number wraps and no int overflows: the unsigned and the signed reading of
      every number in play agree. */
  lemma NoWrap(c: Config, s: System)
    requires c.Valid() && Reachable(c, s)
    ensures s.sender.dataSeqNum + 1 < TWO31 && ToInt32(s.sender.dataSeqNum) == s.sender.dataSeqNum
    ensures 0 <= s.receiver.nextSeq && s.receiver.nextSeq + c.recvWindow < TWO31
    ensures ToU32(s.receiver.nextSeq) == s.receiver.nextSeq
    ensures forall p | p in s.sender.window :: ToInt32(p.header.seqNum) == p.header.seqNum
  {
    hide DataPacket, Reachable, FlightOk, AckOk;
    ReachableInv(c, s);
    SenderBounds(c, s.sender);
  }
}
