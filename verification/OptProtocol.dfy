/** The opt sender and receiver joined by a network that loses, repeats, reorders and
    damages what is sent, with a clock in milliseconds that is read once a step. */
module OptProtocol {
  import opened Wire
  import opened Chunks
  import opened OptSender
  import Rcv = OptReceiver
  import opened Network
  import BaseR = BaseReceiver
  import BaseS = BaseSender

  /** heard is a history variable: the ACKs the sender has acted on. */
  datatype System = System(
    sender: OptState,
    heard: set<int>,
    receiver: BaseR.ReceiverState,
    data: set<Flight>,
    acks: set<seq<byte>>,
    now: int,
    faulted: bool)

  datatype Step =
    | Send(t: int)
    | Timeout(t: int)
    | DeliverAck(d: seq<byte>, t: int)
    | DeliverStartAck(d: seq<byte>, t: int) // the START ACK, come a second time
    | DeliverData(f: Flight, ack: seq<byte>)
    | DeliverStart(d: seq<byte>)
    | LoseData(f: Flight)
    | LoseAck(d: seq<byte>)
    | Damage(f: Flight, payload: seq<byte>)

  predicate Listening(c: Config, s: OptState) {
    Running(c.file, s) && !CanSend(c.file, c.sendWindow, s)
  }

  /** A number no DATA packet of the file has, as randSeqNum is assumed to be. */
  ghost predicate StrayAck(c: Config, d: seq<byte>) {
    exists a: u32 :: a >= NumChunks(c.file) && IsAckDatagram(d, a)
  }

  ghost predicate Enabled(c: Config, s: System, step: Step) {
    !s.faulted &&
    match step
    case Send(t) => s.now <= t && CanSend(c.file, c.sendWindow, s.sender)
    case Timeout(t) => s.now + SocketTimeout(s.sender.window, s.now) <= t && Listening(c, s.sender)
    case DeliverAck(d, t) => s.now <= t && Listening(c, s.sender) && d in s.acks
    case DeliverStartAck(d, t) => s.now <= t && Listening(c, s.sender) && StrayAck(c, d)
    case DeliverData(f, ack) => f in s.data && AckIs(Rcv.OnDatagram(c.recvWindow, s.receiver, f.bytes), ack)
    case DeliverStart(d) =>
      var p := ParsePacket1(Truncate(d, RECV_BUFFER));
      p.Ok? && p.value.header.typ == START
    case LoseData(f) => f in s.data
    case LoseAck(d) => d in s.acks
    case Damage(f, payload) =>
      f in s.data && !f.damaged && |f.bytes| >= HEADER_SIZE && Burst(f.bytes[HEADER_SIZE..], payload)
  }

  /** What the retransmission loop sends. */
  function ResentAt(w: seq<OptPacket>, now: int): set<Flight> {
    set p | p in w && Overdue(p, now) :: Sent(p.packet)
  }

  /** A valid ACK for something sent enters the history. */
  function HeardAfter(s: System, p: Packet): set<int> {
    if p.header.typ != TIMEOUT && ChecksumOk(p) && p.header.seqNum < s.sender.dataSeqNum
    then s.heard + {p.header.seqNum as int}
    else s.heard
  }

  /** One turn of sendData's outer loop from receiveAck on, ending at time t. */
  function Hear(s: System, reply: BaseS.Reply, t: int): System {
    match BaseS.ReceiveAck(reply)
    case Err(_) => s.(faulted := true)
    case Ok(p) =>
      s.(sender := OnReply(s.sender, p, t),
         heard := HeardAfter(s, p),
         data := if p.header.typ == TIMEOUT then s.data + ResentAt(s.sender.window, t) else s.data,
         now := t)
  }

  function Receive(c: Config, s: System, d: seq<byte>, ack: seq<byte>): System {
    match Rcv.OnDatagram(c.recvWindow, s.receiver, d)
    case Err(_) => s.(faulted := true)
    case Ok(r) => s.(receiver := r.state, acks := if r.ack.Some? then s.acks + {ack} else s.acks)
  }

  ghost function Apply(c: Config, s: System, step: Step): System
    requires Enabled(c, s, step)
  {
    match step
    case Send(t) =>
      s.(sender := SendChunk(c.file, s.sender, t),
         data := s.data + {Sent(NextPacket(c.file, s.sender.offset, s.sender.dataSeqNum))},
         now := t)
    case Timeout(t) => Hear(s, BaseS.NoReply, t)
    case DeliverAck(d, t) => Hear(s, BaseS.Datagram(d), t)
    case DeliverStartAck(d, t) => Hear(s, BaseS.Datagram(d), t)
    case DeliverData(f, ack) => Receive(c, s, f.bytes, ack)
    case DeliverStart(d) => Receive(c, s, d, [])
    case LoseData(f) => s.(data := s.data - {f})
    case LoseAck(d) => s.(acks := s.acks - {d})
    case Damage(f, payload) => s.(data := s.data + {Flight(f.bytes[..HEADER_SIZE] + payload, true)})
  }

  /** startConnection has succeeded. The receiver's map may hold anything. */
  predicate Init(s: System) {
    && s.sender == INITIAL && s.heard == {}
    && s.receiver.connection
    && s.data == {} && s.acks == {} && !s.faulted
  }

  /** The first connection of a receiver, opened by a START with this number. */
  function Fresh(start: u32): System {
    System(INITIAL, {}, BaseR.ReceiverState(true, 0, 0, ToInt32(start), map[], map[]), {}, {}, 0, false)
  }

  ghost predicate Reaches(c: Config, s: System, steps: seq<Step>, t: System)
    decreases |steps|
  {
    if steps == [] then s == t
    else Enabled(c, s, steps[0]) && Reaches(c, Apply(c, s, steps[0]), steps[1..], t)
  }

  ghost predicate Reachable(c: Config, s: System) {
    exists s0: System, steps: seq<Step> :: Init(s0) && Reaches(c, s0, steps, s)
  }

  /** No step comes later than its socket timeout lets it: recvfrom gives up when that has run
      out, returns sooner if something arrives, and sending takes no time. */
  predicate OnTime(s: System, step: Step) {
    match step
    case Send(t) => t == s.now
    case Timeout(t) => t == s.now + SocketTimeout(s.sender.window, s.now)
    case DeliverAck(_, t) => t <= s.now + SocketTimeout(s.sender.window, s.now)
    case DeliverStartAck(_, t) => t <= s.now + SocketTimeout(s.sender.window, s.now)
    case _ => true
  }

  ghost predicate ReachesOnTime(c: Config, s: System, steps: seq<Step>, t: System)
    decreases |steps|
  {
    if steps == [] then s == t
    else
      && Enabled(c, s, steps[0]) && OnTime(s, steps[0])
      && ReachesOnTime(c, Apply(c, s, steps[0]), steps[1..], t)
  }

  lemma {:induction false} OnTimeReaches(c: Config, s: System, steps: seq<Step>, t: System)
    requires ReachesOnTime(c, s, steps, t)
    ensures Reaches(c, s, steps, t)
    decreases |steps|
  {
    hide Enabled, Apply, OnTime;
    if steps != [] {
      OnTimeReaches(c, Apply(c, s, steps[0]), steps[1..], t);
    }
  }

  // ---- The invariant ----

  /** The receiver's map holds chunk i under i. */
  predicate Stored(file: seq<byte>, r: BaseR.ReceiverState, i: nat) {
    i in r.received && r.received[i].data == Chunk(file, i)
  }

  ghost predicate StoredAckOk(file: seq<byte>, r: BaseR.ReceiverState, n: u32, d: seq<byte>) {
    exists a: u32 :: a < n && Stored(file, r, a) && IsAckDatagram(d, a)
  }

  ghost predicate Inv(c: Config, s: System) {
    && !s.faulted
    && SenderIs(c.file, c.sendWindow, s.sender, s.heard)
    && (forall p | p in s.sender.window :: p.sentTime <= s.now)
    && s.receiver.connection
    && (forall i: nat | i in s.heard :: Stored(c.file, s.receiver, i))
    && (forall f | f in s.data :: FlightOk(c.file, s.sender.dataSeqNum, f))
    && (forall d | d in s.acks :: StoredAckOk(c.file, s.receiver, s.sender.dataSeqNum, d))
  }

  lemma StoredAckStays(file: seq<byte>, r: BaseR.ReceiverState, n: u32, q: BaseR.ReceiverState, m: u32, d: seq<byte>)
    requires StoredAckOk(file, r, n, d) && n <= m
    requires forall i: nat | Stored(file, r, i) :: Stored(file, q, i)
    ensures StoredAckOk(file, q, m, d)
  {
    hide IsAckDatagram, Stored;
    var a: u32 :| a < n && Stored(file, r, a) && IsAckDatagram(d, a);
    assert a < m && Stored(file, q, a);
  }

  lemma SenderRange(c: Config, s: System)
    requires Inv(c, s)
    ensures 0 <= Base(s.sender) <= s.sender.dataSeqNum <= NumChunks(c.file)
    ensures s.sender.window != [] ==> !s.sender.window[0].acked && Base(s.sender) !in s.heard
    ensures forall k | 0 <= k < |s.sender.window| ::
              s.sender.window[k].packet == DataPacket(c.file, Base(s.sender) + k)
  {
    hide FlightOk, StoredAckOk, Stored, DataPacket;
    SeqNumsOf(c.file, c.sendWindow, s.sender, s.heard);
    forall k | 0 <= k < |s.sender.window|
      ensures s.sender.window[k].packet == DataPacket(c.file, Base(s.sender) + k)
    {
      PacketAt(c.file, s.sender.dataSeqNum, Base(s.sender) + k);
    }
  }

  // ---- The sender's steps ----

  lemma OffsetOf(c: Config, s: System)
    requires Inv(c, s)
    ensures s.sender.offset == Offset(c.file, s.sender.dataSeqNum)
  {
    hide FlightOk, StoredAckOk, Stored, Packets;
  }

  lemma SendKeepsInv(c: Config, s: System, t: int)
    requires c.Valid() && Inv(c, s) && Enabled(c, s, Send(t))
    ensures Inv(c, Apply(c, s, Send(t)))
    ensures var u := Apply(c, s, Send(t));
            u.sender.dataSeqNum == s.sender.dataSeqNum + 1 && Base(u.sender) == Base(s.sender)
  {
    hide NextPacket, DataPacket, Sent, FlightOk, StoredAckOk, Stored, SenderIs;
    SendKeeps(c.file, c.sendWindow, s.sender, s.heard, t);
    OffsetOf(c, s);
    var n: u32 := s.sender.dataSeqNum;
    NextIsDataPacket(c.file, n);
    SentIsOk(c.file, n, n + 1);
    var u := Apply(c, s, Send(t));
    forall f | f in u.data
      ensures FlightOk(c.file, n + 1, f)
    {
      if f in s.data {
        FlightStaysOk(c.file, n, n + 1, f);
      }
    }
    forall d | d in u.acks
      ensures StoredAckOk(c.file, s.receiver, n + 1, d)
    {
      StoredAckStays(c.file, s.receiver, n, s.receiver, n + 1, d);
    }
  }

  /** A timeout sends again what is overdue, with a fresh time, and changes nothing else. */
  lemma TimeoutIs(s: System, t: int)
    ensures Hear(s, BaseS.NoReply, t) ==
            s.(sender := s.sender.(window := Retransmit(s.sender.window, t)),
               data := s.data + ResentAt(s.sender.window, t), now := t)
  {
    hide MakePacket, ResentAt, Retransmit;
    TimeoutReply();
  }

  lemma ResentOk(c: Config, s: System, t: int, f: Flight)
    requires Inv(c, s) && f in ResentAt(s.sender.window, t)
    ensures FlightOk(c.file, s.sender.dataSeqNum, f)
  {
    hide Sent, DataPacket, FlightOk, StoredAckOk, Stored, Packets;
    var p :| p in s.sender.window && f == Sent(p.packet);
    var k :| 0 <= k < |s.sender.window| && s.sender.window[k] == p;
    SenderRange(c, s);
    SentIsOk(c.file, Base(s.sender) + k, s.sender.dataSeqNum);
  }

  lemma TimeoutKeepsInv(c: Config, s: System, t: int)
    requires Inv(c, s) && s.now <= t
    ensures Inv(c, Hear(s, BaseS.NoReply, t))
  {
    hide SenderIs, FlightOk, StoredAckOk, Stored, Hear, ResentAt;
    TimeoutIs(s, t);
    TimeoutKeeps(c.file, c.sendWindow, s.sender, s.heard, t);
    forall f | f in ResentAt(s.sender.window, t)
      ensures FlightOk(c.file, s.sender.dataSeqNum, f)
    {
      ResentOk(c, s, t, f);
    }
  }

  /** An ACK parses to its number and passes isAckValid. */
  lemma AckHeard(s: System, d: seq<byte>, a: u32, t: int)
    requires IsAckDatagram(d, a)
    ensures Hear(s, BaseS.Datagram(d), t) ==
            s.(sender := OnAck(s.sender, a), now := t,
               heard := if a < s.sender.dataSeqNum then s.heard + {a as int} else s.heard)
  {
    hide CrcU32, ReceiveAckBytes, OnAck, ResentAt;
    AckRoundTrip(d, a);
  }

  lemma AckKeepsInv(c: Config, s: System, d: seq<byte>, a: u32, t: int)
    requires Inv(c, s) && s.now <= t && IsAckDatagram(d, a)
    requires a < s.sender.dataSeqNum ==> Stored(c.file, s.receiver, a)
    ensures Inv(c, Hear(s, BaseS.Datagram(d), t))
  {
    hide SenderIs, FlightOk, StoredAckOk, Stored, Hear, OnAck, IsAckDatagram;
    AckHeard(s, d, a, t);
    AckKeeps(c.file, c.sendWindow, s.sender, s.heard, a);
    var u := Hear(s, BaseS.Datagram(d), t);
    assert a >= s.sender.dataSeqNum ==> u.sender == s.sender;
  }

  /** An ACK from elsewhere is harmless iff its number is not that of a packet sent and not
      yet stored: so it is enough that randSeqNum is no DATA number in use. */
  lemma StrayAckSafeIff(c: Config, s: System, d: seq<byte>, a: u32, t: int)
    requires Inv(c, s) && s.now <= t && IsAckDatagram(d, a)
    ensures Inv(c, Hear(s, BaseS.Datagram(d), t))
            <==> (a < s.sender.dataSeqNum ==> Stored(c.file, s.receiver, a))
  {
    hide SenderIs, FlightOk, StoredAckOk, Stored, Hear, OnAck, IsAckDatagram;
    AckHeard(s, d, a, t);
    if a < s.sender.dataSeqNum && !Stored(c.file, s.receiver, a) {
      assert a as int in Hear(s, BaseS.Datagram(d), t).heard;
    } else {
      AckKeepsInv(c, s, d, a, t);
    }
  }

  // ---- The receiver's steps ----

  /** What the opt receiver makes of DATA packet i, sound or damaged. */
  lemma DataArrives(c: Config, s: BaseR.ReceiverState, i: u32, f: Flight)
    requires c.Valid() && i < NumChunks(c.file) && Carries(c.file, i, f)
    ensures Rcv.OnDatagram(c.recvWindow, s, f.bytes).Ok?
    ensures var r := Rcv.OnDatagram(c.recvWindow, s, f.bytes).value;
            && r.state.connection == s.connection
            && r.state.files == s.files && r.state.counter == s.counter
            && (forall j: nat | Stored(c.file, s, j) :: Stored(c.file, r.state, j))
            && (r.ack.Some? ==> r.ack.value == i && Stored(c.file, r.state, i))
            && (!f.damaged && c.recvWindow >= 1 ==> r.ack.Some?)
  {
    hide Carries, CrcU32, ParsePacket1, Chunk;
    var p := FlightParses(c.file, i, f);
    Rcv.DataStep(c.recvWindow, s, p);
    SmallConversions(i);
  }

  lemma StoredAckIntro(file: seq<byte>, r: BaseR.ReceiverState, n: u32, d: seq<byte>, a: u32)
    requires a < n && Stored(file, r, a) && IsAckDatagram(d, a)
    ensures StoredAckOk(file, r, n, d)
  {
    hide Stored, IsAckDatagram;
  }

  lemma DataKeepsInv(c: Config, s: System, f: Flight, ack: seq<byte>)
    requires c.Valid() && Inv(c, s) && Enabled(c, s, DeliverData(f, ack))
    ensures Inv(c, Apply(c, s, DeliverData(f, ack)))
    ensures Apply(c, s, DeliverData(f, ack)).receiver.files == s.receiver.files
    ensures Apply(c, s, DeliverData(f, ack)).receiver.counter == s.receiver.counter
  {
    hide SenderIs, Carries, Stored, IsAckDatagram, StoredAckOk;
    SenderRange(c, s);
    var i: u32 :| i < s.sender.dataSeqNum && Carries(c.file, i, f);
    DataArrives(c, s.receiver, i, f);
    hide Rcv.OnDatagram;
    var u := Apply(c, s, DeliverData(f, ack));
    forall d | d in u.acks
      ensures StoredAckOk(c.file, u.receiver, u.sender.dataSeqNum, d)
    {
      if d in s.acks {
        StoredAckStays(c.file, s.receiver, s.sender.dataSeqNum, u.receiver, s.sender.dataSeqNum, d);
      } else {
        StoredAckIntro(c.file, u.receiver, u.sender.dataSeqNum, d, i);
      }
    }
  }

  lemma StartIgnored(c: Config, s: System, d: seq<byte>)
    requires Inv(c, s) && Enabled(c, s, DeliverStart(d))
    ensures Apply(c, s, DeliverStart(d)) == s
  {
    hide SenderIs, FlightOk, StoredAckOk, Stored, ParsePacket1, Rcv.OnData;
  }

  lemma DamageKeepsInv(c: Config, s: System, f: Flight, payload: seq<byte>)
    requires Inv(c, s) && Enabled(c, s, Damage(f, payload))
    ensures Inv(c, Apply(c, s, Damage(f, payload)))
  {
    hide SenderIs, StoredAckOk, Stored, HeaderBytes, Burst, DataPacket;
    var i: u32 :| i < s.sender.dataSeqNum && Carries(c.file, i, f);
    var g := Flight(f.bytes[..HEADER_SIZE] + payload, true);
    assert g.bytes[..HEADER_SIZE] == f.bytes[..HEADER_SIZE] && g.bytes[HEADER_SIZE..] == payload;
    assert Carries(c.file, i, g);
  }

  lemma ReceiveKeepsSender(c: Config, s: System, d: seq<byte>, ack: seq<byte>)
    ensures var u := Receive(c, s, d, ack);
            u.sender == s.sender && u.heard == s.heard && u.now == s.now
  {
  }

  // ---- Every run ----

  lemma InitInv(c: Config, s: System)
    requires c.Valid() && Init(s)
    ensures Inv(c, s)
  {
  }

  lemma AckNumber(c: Config, s: System, d: seq<byte>) returns (a: u32)
    requires Inv(c, s) && d in s.acks
    ensures a < s.sender.dataSeqNum && Stored(c.file, s.receiver, a) && IsAckDatagram(d, a)
  {
    hide Stored, IsAckDatagram, SenderIs, FlightOk;
    a :| a < s.sender.dataSeqNum && Stored(c.file, s.receiver, a) && IsAckDatagram(d, a);
  }

  lemma StepKeepsInv(c: Config, s: System, step: Step)
    requires c.Valid() && Inv(c, s) && Enabled(c, s, step)
    ensures var t := Apply(c, s, step);
            && Inv(c, t)
            && t.receiver.files == s.receiver.files && t.receiver.counter == s.receiver.counter
  {
    hide SenderIs, FlightOk, StoredAckOk, Stored, Hear, Receive, IsAckDatagram, SendChunk;
    match step
    case Send(t) => SendKeepsInv(c, s, t);
    case Timeout(t) =>
      SocketTimeoutCorrect(s.sender.window, s.now);
      TimeoutKeepsInv(c, s, t);
      TimeoutIs(s, t);
    case DeliverAck(d, t) =>
      var a := AckNumber(c, s, d);
      AckKeepsInv(c, s, d, a, t);
      AckHeard(s, d, a, t);
    case DeliverStartAck(d, t) =>
      var a: u32 :| a >= NumChunks(c.file) && IsAckDatagram(d, a);
      SenderRange(c, s);
      AckKeepsInv(c, s, d, a, t);
      AckHeard(s, d, a, t);
    case DeliverData(f, ack) => DataKeepsInv(c, s, f, ack);
    case DeliverStart(d) => StartIgnored(c, s, d);
    case LoseData(f) =>
    case LoseAck(d) =>
    case Damage(f, payload) => DamageKeepsInv(c, s, f, payload);
  }

  lemma {:induction false} RunKeepsInv(c: Config, s: System, steps: seq<Step>, t: System)
    requires c.Valid() && Inv(c, s) && Reaches(c, s, steps, t)
    ensures Inv(c, t)
    ensures t.receiver.files == s.receiver.files && t.receiver.counter == s.receiver.counter
    decreases |steps|
  {
    hide Inv, Enabled, Apply;
    if steps != [] {
      StepKeepsInv(c, s, steps[0]);
      RunKeepsInv(c, Apply(c, s, steps[0]), steps[1..], t);
    }
  }

  lemma ReachableInv(c: Config, s: System)
    requires c.Valid() && Reachable(c, s)
    ensures Inv(c, s)
  {
    hide Inv, Init, Reaches;
    var s0: System, steps: seq<Step> :| Init(s0) && Reaches(c, s0, steps, s);
    InitInv(c, s0);
    RunKeepsInv(c, s0, steps, s);
  }

  // ---- What it means ----

  /** The chunks the map holds under 0 up to k, in order. */
  function ReadMap(r: BaseR.ReceiverState, k: nat): seq<byte>
    decreases k
  {
    if k == 0 then []
    else ReadMap(r, k - 1) + (if k - 1 in r.received then r.received[k - 1].data else [])
  }

  lemma {:induction false} ReadStored(file: seq<byte>, r: BaseR.ReceiverState, k: nat)
    requires forall i: nat | i < k :: Stored(file, r, i)
    ensures ReadMap(r, k) == ConcatChunks(file, k)
    decreases k
  {
    hide Chunk;
    if k != 0 {
      assert Stored(file, r, k - 1);
      ReadStored(file, r, k - 1);
    }
  }

  /** Safety: a packet has left the window, or is flagged, only if the receiver's map holds
      its very chunk; and when sendData's loop exits, the map read in order is the file. */
  lemma Safety(c: Config, s: System)
    requires c.Valid() && Reachable(c, s)
    ensures !s.faulted
    ensures forall i: nat | i < Base(s.sender) :: Stored(c.file, s.receiver, i)
    ensures forall k | 0 <= k < |s.sender.window| && s.sender.window[k].acked ::
              0 <= Base(s.sender) + k && Stored(c.file, s.receiver, Base(s.sender) + k)
    ensures !Running(c.file, s.sender) ==> ReadMap(s.receiver, NumChunks(c.file)) == c.file
  {
    hide FlightOk, StoredAckOk, Stored, Packets, Reachable;
    ReachableInv(c, s);
    SeqNumsOf(c.file, c.sendWindow, s.sender, s.heard);
    RunningIffOutstanding(c.file, c.sendWindow, s.sender, s.heard);
    if !Running(c.file, s.sender) {
      ReadStored(c.file, s.receiver, NumChunks(c.file));
      AllChunksAreFile(c.file);
    }
  }

  /** The window is never empty at receiveAck, and never longer than w. */
  lemma WindowNonempty(c: Config, s: System)
    requires c.Valid() && Reachable(c, s) && Listening(c, s.sender)
    ensures 0 < |s.sender.window| <= c.sendWindow && !s.sender.window[0].acked
  {
    hide FlightOk, StoredAckOk, Stored, Packets, Reachable;
    ReachableInv(c, s);
    SeqNumsOf(c.file, c.sendWindow, s.sender, s.heard);
  }

  /** No number wraps and no int overflows, in the opt receiver's window test too: it adds the
      window size to the number of a DATA packet in flight. */
  lemma NoWrap(c: Config, s: System)
    requires c.Valid() && Reachable(c, s)
    ensures s.sender.dataSeqNum + 1 < TWO31
    ensures forall f | f in s.data ::
              exists i: u32 :: Carries(c.file, i, f) && ToInt32(i) == i && i + c.recvWindow < TWO31
  {
    hide FlightOk, StoredAckOk, Stored, Packets, Reachable, Carries;
    ReachableInv(c, s);
    SenderRange(c, s);
    forall f | f in s.data
      ensures exists i: u32 :: Carries(c.file, i, f) && ToInt32(i) == i && i + c.recvWindow < TWO31
    {
      var i := FlightNumber(c.file, s.sender.dataSeqNum, f);
      assert i + c.recvWindow < TWO31;
    }
  }

  /** The output file, meanwhile, stays as it was: at exit it has gained the file sent iff
      that is empty. */
  lemma FileCompleteIffEmpty(c: Config, s0: System, steps: seq<Step>, s: System)
    requires c.Valid() && Init(s0) && Reaches(c, s0, steps, s)
    ensures var before := BaseR.Contents(s0.receiver.files, s0.receiver.counter);
            BaseR.Contents(s.receiver.files, s.receiver.counter) == before + c.file <==> c.file == []
  {
    hide Reaches;
    InitInv(c, s0);
    hide Inv;
    RunKeepsInv(c, s0, steps, s);
    var before := BaseR.Contents(s0.receiver.files, s0.receiver.counter);
    assert before + [] == before && |before + c.file| == |before| + |c.file|;
  }
}
