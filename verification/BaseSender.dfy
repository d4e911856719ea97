/** The Go-Back-N sender of cpp/src/base: what one step of sendData does to its state, and
    what every step keeps. Classes that perform these steps are in BaseClasses. */
module BaseSender {
  import opened Wire
  import opened Chunks

  /** offset and dataSeqNum of sendData, and the deque of the Window it shares. */
  datatype SenderState = SenderState(offset: nat, dataSeqNum: u32, window: seq<Packet>)

  /** What recvfrom gives receiveAck: nothing within the timeout, or a datagram. */
  datatype Reply = NoReply | Datagram(bytes: seq<byte>)

  function ReceiveAck(reply: Reply): Result<Packet> {
    match reply
    case NoReply => Ok(MakePacket(TIMEOUT, [], 0))
    case Datagram(d) => ReceiveAckBytes(d)
  }

  /** The guard of the inner loop. */
  predicate CanSend(file: seq<byte>, w: int, s: SenderState) {
    |s.window| < w && s.offset < |file|
  }

  /** The guard of the outer loop. */
  predicate Running(file: seq<byte>, s: SenderState) {
    s.offset < |file| || s.window != []
  }

  /** One turn of the inner loop. */
  function SendChunk(file: seq<byte>, s: SenderState): SenderState
    requires s.offset < |file|
  {
    var p := NextPacket(file, s.offset, s.dataSeqNum);
    SenderState(s.offset + |p.data|, ToU32(s.dataSeqNum + 1), s.window + [p])
  }

  /** A valid ACK: a number past the front of the window pops everything below it. front and
      pop_front on an empty deque are faults. */
  function OnAck(s: SenderState, seqNum: u32): Result<SenderState> {
    if s.window == [] then Err(EmptyDeque)
    else if seqNum <= s.window[0].header.seqNum then Ok(s)
    else
      var acked := seqNum - s.window[0].header.seqNum;
      if acked > |s.window| then Err(EmptyDeque)
      else Ok(s.(window := s.window[acked..]))
  }

  /** What sendData does with the packet receiveAck returns. */
  function OnReply(s: SenderState, p: Packet): Result<SenderState> {
    if p.header.typ == TIMEOUT || !ChecksumOk(p) then Ok(s) else OnAck(s, p.header.seqNum)
  }

  /** The packets sent again: all of the window after a timeout, none otherwise. */
  function Resent(s: SenderState, p: Packet): seq<Packet> {
    if p.header.typ == TIMEOUT then s.window else []
  }

  // ---- What every step keeps ----

  const INITIAL := SenderState(0, 0, [])

  /** The first sequence number not yet acknowledged. */
  function Base(s: SenderState): int {
    s.dataSeqNum - |s.window|
  }

  /** The window is packets Base up to dataSeqNum in order, at most w of them, and the file
      has been read up to the chunk that comes next. */
  ghost predicate SenderOk(file: seq<byte>, w: int, s: SenderState) {
    && 0 <= Base(s)
    && s.dataSeqNum <= NumChunks(file)
    && |s.window| <= w
    && s.offset == Offset(file, s.dataSeqNum)
    && s.window == Packets(file, s.dataSeqNum)[Base(s)..]
  }

  lemma SendChunkKeeps(file: seq<byte>, w: int, s: SenderState)
    requires NumChunks(file) < TWO32
    requires SenderOk(file, w, s) && CanSend(file, w, s)
    ensures var t := SendChunk(file, s);
            SenderOk(file, w, t) && Base(t) == Base(s) && t.dataSeqNum == s.dataSeqNum + 1
  {
    hide NextPacket, DataPacket;
    NextIsDataPacket(file, s.dataSeqNum);
    var n, p := s.dataSeqNum, DataPacket(file, s.dataSeqNum);
    assert (Packets(file, n) + [p])[Base(s)..] == Packets(file, n)[Base(s)..] + [p];
  }

  /** A valid ACK for something sent moves the base of the window up to its number, and
      never down. */
  lemma AckMovesBase(file: seq<byte>, w: int, s: SenderState, seqNum: u32)
    requires SenderOk(file, w, s) && s.window != [] && seqNum <= s.dataSeqNum
    ensures OnAck(s, seqNum).Ok?
    ensures var t := OnAck(s, seqNum).value;
            && SenderOk(file, w, t)
            && t.dataSeqNum == s.dataSeqNum && t.offset == s.offset
            && Base(t) == if seqNum > Base(s) then seqNum else Base(s)
  {
    assert s.window[0].header.seqNum == Base(s);
  }

  /** The pop loop leaves the deque's defined behaviour iff the ACK is for a packet never
      sent: the test the sender does not make. */
  lemma PopFaultsIffUnsent(file: seq<byte>, w: int, s: SenderState, seqNum: u32)
    requires SenderOk(file, w, s) && s.window != []
    ensures OnAck(s, seqNum) == Err(EmptyDeque) <==> seqNum > s.dataSeqNum
  {
    assert s.window[0].header.seqNum == Base(s);
  }

  /** A START ACK that comes a second time is such an ACK: with one packet out and a START
      sequence number of 2, the sender pops an empty deque. */
  lemma LateStartAckFaults(file: seq<byte>, d: seq<byte>)
    requires 0 < |file| <= CHUNK_SIZE && IsAckDatagram(d, 2)
    ensures ReceiveAck(Datagram(d)).Ok?
    ensures OnReply(SendChunk(file, INITIAL), ReceiveAck(Datagram(d)).value) == Err(EmptyDeque)
  {
    AckRoundTrip(d, 2);
    SendChunkKeeps(file, 1, INITIAL);
    PopFaultsIffUnsent(file, 1, SendChunk(file, INITIAL), 2);
  }

  /** sendData's loop ends only when every chunk has been sent and acknowledged. */
  lemma ExitMeansAllAcked(file: seq<byte>, w: int, s: SenderState)
    requires SenderOk(file, w, s)
    ensures !Running(file, s) <==> Base(s) == NumChunks(file)
  {
    ChunkSizes(file, s.dataSeqNum);
  }

  // ---- A whole call of sendData ----

  datatype Outcome = Finished | Waiting | Faulted(fault: Fault)

  /** The state reached, the datagrams sent on the way, and how the call stands. */
  datatype SendRun = SendRun(state: SenderState, sent: seq<seq<byte>>, outcome: Outcome)

  /** The datagrams of these packets, one each, in their order. */
  function Datagrams(ps: seq<Packet>): seq<seq<byte>>
    decreases |ps|
  {
    if ps == [] then [] else [Serialize(ps[0])] + Datagrams(ps[1..])
  }

  lemma {:induction false} DatagramsAre(ps: seq<Packet>)
    ensures |Datagrams(ps)| == |ps|
    ensures forall k | 0 <= k < |ps| :: Datagrams(ps)[k] == Serialize(ps[k])
    decreases |ps|
  {
    hide Serialize;
    if ps != [] {
      DatagramsAre(ps[1..]);
    }
  }

  lemma ChunkAdvances(file: seq<byte>, s: SenderState)
    requires s.offset < |file|
    ensures s.offset < SendChunk(file, s).offset <= |file|
  {
    hide CrcU32;
  }

  /** The inner loop. */
  function Fill(file: seq<byte>, w: int, s: SenderState): (SenderState, seq<seq<byte>>)
    decreases |file| - s.offset
  {
    if CanSend(file, w, s) then
      ChunkAdvances(file, s);
      var (t, sent) := Fill(file, w, SendChunk(file, s));
      (t, [Serialize(NextPacket(file, s.offset, s.dataSeqNum))] + sent)
    else (s, [])
  }

  lemma FillOnce(file: seq<byte>, w: int, s: SenderState)
    ensures CanSend(file, w, s) ==>
              var (t, sent) := Fill(file, w, SendChunk(file, s));
              Fill(file, w, s) == (t, [Serialize(NextPacket(file, s.offset, s.dataSeqNum))] + sent)
    ensures !CanSend(file, w, s) ==> Fill(file, w, s) == (s, [])
  {
    hide NextPacket, SendChunk, Serialize;
  }

  /** One turn of the outer loop: fill the window, then take what receiveAck meets. Waiting
      means that the loop goes on. */
  function Turn(file: seq<byte>, w: int, s: SenderState, reply: Reply): SendRun {
    var (t, sent) := Fill(file, w, s);
    match ReceiveAck(reply)
    case Err(f) => SendRun(t, sent, Faulted(f))
    case Ok(p) =>
      match OnReply(t, p)
      case Err(f) => SendRun(t, sent, Faulted(f))
      case Ok(u) => SendRun(u, sent + Datagrams(Resent(t, p)), Waiting)
  }

  /** sendData from state s, given what each call of receiveAck meets; Waiting is the next
      one. */
  function Run(file: seq<byte>, w: int, s: SenderState, replies: seq<Reply>): SendRun
    decreases |replies|
  {
    if !Running(file, s) then SendRun(s, [], Finished)
    else if replies == [] then
      var (t, sent) := Fill(file, w, s);
      SendRun(t, sent, Waiting)
    else
      var turn := Turn(file, w, s, replies[0]);
      if turn.outcome != Waiting then turn
      else
        var r := Run(file, w, turn.state, replies[1..]);
        SendRun(r.state, turn.sent + r.sent, r.outcome)
  }

  lemma RunOnce(file: seq<byte>, w: int, s: SenderState, replies: seq<Reply>)
    ensures !Running(file, s) ==> Run(file, w, s, replies) == SendRun(s, [], Finished)
    ensures Running(file, s) && replies == [] ==>
              var (t, sent) := Fill(file, w, s);
              Run(file, w, s, replies) == SendRun(t, sent, Waiting)
    ensures Running(file, s) && replies != [] ==>
              var turn := Turn(file, w, s, replies[0]);
              Run(file, w, s, replies) ==
              if turn.outcome != Waiting then turn
              else
                var r := Run(file, w, turn.state, replies[1..]);
                SendRun(r.state, turn.sent + r.sent, r.outcome)
  {
    hide Turn, Fill;
  }

  /** The datagram of DATA packet i. */
  function DataBytes(file: seq<byte>, i: u32): seq<byte> {
    Serialize(DataPacket(file, i))
  }

  lemma DataBytesDiffer(file: seq<byte>, i: u32, j: u32)
    requires DataBytes(file, i) == DataBytes(file, j)
    ensures i == j
  {
    hide CrcU32, HeaderBytes, ParsePacket, ParsePacket1, Truncate, Serialize;
    ChunkSizes(file, i);
    ChunkSizes(file, j);
    WireRoundTrip(DATA, Chunk(file, i), i);
    WireRoundTrip(DATA, Chunk(file, j), j);
  }

  /** Only DATA packets with numbers below m were sent, and among them all from n to m. */
  ghost predicate SentRange(file: seq<byte>, sent: seq<seq<byte>>, n: u32, m: u32) {
    && (forall d | d in sent :: exists i: u32 :: i < m && d == DataBytes(file, i))
    && (forall i: u32 | n <= i < m :: DataBytes(file, i) in sent)
  }

  lemma SentRangeJoin(file: seq<byte>, x: seq<seq<byte>>, y: seq<seq<byte>>, n: u32, m: u32, l: u32)
    requires n <= m <= l && SentRange(file, x, n, m) && SentRange(file, y, m, l)
    ensures SentRange(file, x + y, n, l)
  {
    hide DataBytes;
    forall d | d in x + y
      ensures exists i: u32 :: i < l && d == DataBytes(file, i)
    {
      if d in x {
        var i: u32 :| i < m && d == DataBytes(file, i);
        assert i < l;
      }
    }
    forall i: u32 | n <= i < l
      ensures DataBytes(file, i) in x + y
    {
      if i < m {
        assert DataBytes(file, i) in x;
      } else {
        assert DataBytes(file, i) in y;
      }
    }
  }

  lemma SentOne(file: seq<byte>, i: u32, m: u32)
    requires m == i + 1
    ensures SentRange(file, [DataBytes(file, i)], i, m)
  {
    hide DataBytes;
  }

  lemma FirstOfFill(file: seq<byte>, w: int, s: SenderState)
    requires SenderOk(file, w, s) && CanSend(file, w, s)
    ensures Serialize(NextPacket(file, s.offset, s.dataSeqNum)) == DataBytes(file, s.dataSeqNum)
  {
    hide NextPacket, DataPacket, Serialize;
    NextIsDataPacket(file, s.dataSeqNum);
  }

  lemma NothingSent(file: seq<byte>, n: u32)
    ensures SentRange(file, [], n, n)
  {
  }

  lemma {:induction false} FillKeeps(file: seq<byte>, w: int, s: SenderState)
    requires NumChunks(file) < TWO32 && SenderOk(file, w, s)
    ensures var (t, sent) := Fill(file, w, s);
            && SenderOk(file, w, t) && Base(t) == Base(s) && s.dataSeqNum <= t.dataSeqNum
            && !CanSend(file, w, t)
            && SentRange(file, sent, s.dataSeqNum, t.dataSeqNum)
    decreases |file| - s.offset
  {
    hide NextPacket, DataPacket, Packets, DataBytes, SentRange, SenderOk, SendChunk;
    if CanSend(file, w, s) {
      ChunkAdvances(file, s);
      SendChunkKeeps(file, w, s);
      var u := SendChunk(file, s);
      FillKeeps(file, w, u);
      FirstOfFill(file, w, s);
      SentOne(file, s.dataSeqNum, u.dataSeqNum);
      var (t, rest) := Fill(file, w, u);
      SentRangeJoin(file, [DataBytes(file, s.dataSeqNum)], rest, s.dataSeqNum, u.dataSeqNum, t.dataSeqNum);
    } else {
      NothingSent(file, s.dataSeqNum);
    }
  }

  lemma {:induction false} DatagramsOfWindow(file: seq<byte>, ps: seq<Packet>, from: u32, n: u32)
    requires from <= n && ps == Packets(file, n)[from..]
    ensures forall d | d in Datagrams(ps) :: exists i: u32 :: i < n && d == DataBytes(file, i)
    decreases n - from
  {
    hide DataPacket, Serialize, Packets;
    if ps != [] {
      PacketAt(file, n, from);
      assert ps[0] == DataPacket(file, from);
      assert Serialize(ps[0]) == DataBytes(file, from);
      assert ps[1..] == Packets(file, n)[from + 1..];
      DatagramsOfWindow(file, ps[1..], from + 1, n);
    }
  }

  lemma ResentAreData(file: seq<byte>, w: int, s: SenderState, p: Packet)
    requires SenderOk(file, w, s)
    ensures SentRange(file, Datagrams(Resent(s, p)), s.dataSeqNum, s.dataSeqNum)
  {
    hide Packets, DataBytes;
    if p.header.typ == TIMEOUT {
      DatagramsOfWindow(file, s.window, Base(s), s.dataSeqNum);
    }
  }

  /** sent is the datagrams of DATA packets n up to m, one each, in order. */
  predicate InOrder(file: seq<byte>, sent: seq<seq<byte>>, n: u32, m: u32) {
    && |sent| == m - n
    && (forall k | 0 <= k < |sent| :: sent[k] == DataBytes(file, n + k))
  }

  lemma JoinInOrder(file: seq<byte>, i: u32, sent: seq<seq<byte>>, m: u32)
    requires i + 1 < TWO32 && InOrder(file, sent, i + 1, m)
    ensures InOrder(file, [DataBytes(file, i)] + sent, i, m)
  {
    hide DataBytes;
    var all := [DataBytes(file, i)] + sent;
    forall k | 0 <= k < |all|
      ensures all[k] == DataBytes(file, i + k)
    {
      if k > 0 {
        assert sent[k - 1] == DataBytes(file, i + 1 + (k - 1));
      }
    }
  }

  lemma NoneInOrder(file: seq<byte>, n: u32)
    ensures InOrder(file, [], n, n)
  {
  }

  /** The inner loop sends each packet the window has room for, once and in order. */
  lemma {:induction false} FillInOrder(file: seq<byte>, w: int, s: SenderState)
    requires NumChunks(file) < TWO32 && SenderOk(file, w, s)
    ensures var (t, sent) := Fill(file, w, s);
            && SenderOk(file, w, t)
            && t.dataSeqNum == Min(NumChunks(file), Base(s) + w)
            && InOrder(file, sent, s.dataSeqNum, t.dataSeqNum)
    decreases |file| - s.offset
  {
    hide NextPacket, DataPacket, Packets, DataBytes, InOrder, SendChunk, NumChunks, Offset;
    FillOnce(file, w, s);
    if CanSend(file, w, s) {
      ChunkAdvances(file, s);
      SendChunkKeeps(file, w, s);
      FillInOrder(file, w, SendChunk(file, s));
      FirstOfFill(file, w, s);
      var (t, rest) := Fill(file, w, SendChunk(file, s));
      JoinInOrder(file, s.dataSeqNum, rest, t.dataSeqNum);
    } else {
      NoneInOrder(file, s.dataSeqNum);
      ChunkSizes(file, s.dataSeqNum);
    }
  }

  /** A timeout, or a datagram of type 4, has every packet of the window sent again, once and
      in order, front to back; nothing else is sent again. */
  lemma ResentInOrder(file: seq<byte>, w: int, s: SenderState, p: Packet)
    requires SenderOk(file, w, s)
    ensures p.header.typ == 4 ==> InOrder(file, Datagrams(Resent(s, p)), Base(s), s.dataSeqNum)
    ensures p.header.typ != 4 ==> Resent(s, p) == []
  {
    hide DataPacket, Serialize;
    if p.header.typ == 4 {
      DatagramsAre(s.window);
      forall k | 0 <= k < |s.window|
        ensures Datagrams(s.window)[k] == DataBytes(file, Base(s) + k)
      {
        PacketAt(file, s.dataSeqNum, Base(s) + k);
      }
    }
  }

  /** A reply whose checksum is not that of its data changes nothing and has nothing sent. */
  lemma InvalidReplyIgnored(s: SenderState, d: seq<byte>)
    requires ReceiveAckBytes(d).Ok?
    requires var p := ReceiveAckBytes(d).value; p.header.typ != 4 && p.header.checksum != CrcU32(p.data)
    ensures OnReply(s, ReceiveAck(Datagram(d)).value) == Ok(s)
    ensures Resent(s, ReceiveAck(Datagram(d)).value) == []
  {
    hide CrcU32, ReceiveAckBytes;
  }

  lemma NoReplyIsTimeout(s: SenderState)
    ensures ReceiveAck(NoReply).Ok? && ReceiveAck(NoReply).value.header.typ == 4
    ensures OnReply(s, ReceiveAck(NoReply).value) == Ok(s)
  {
    hide CrcU32;
  }

  /** What one turn of the outer loop sends: the packets there is room for, then, after a
      timeout, the whole window, each once and in order. */
  lemma TurnSendsInOrder(file: seq<byte>, w: int, s: SenderState, reply: Reply)
    returns (fill: seq<seq<byte>>, again: seq<seq<byte>>)
    requires 1 <= w && NumChunks(file) < TWO32 && SenderOk(file, w, s)
    ensures var r := Turn(file, w, s, reply);
            && r.sent == fill + again
            && var m := Min(NumChunks(file), Base(s) + w);
               && InOrder(file, fill, s.dataSeqNum, m)
               && (if reply == NoReply then InOrder(file, again, Base(s), m)
                   else if r.outcome == Waiting && ReceiveAck(reply).value.header.typ == 4
                   then InOrder(file, again, Base(s), m)
                   else again == [])
  {
    hide InOrder, Fill, OnReply, Resent, ReceiveAck, Packets, NumChunks, SenderOk;
    FillInOrder(file, w, s);
    FillKeeps(file, w, s);
    var (t, sent) := Fill(file, w, s);
    NoReplyIsTimeout(t);
    fill, again := sent, [];
    if ReceiveAck(reply).Ok? {
      var p := ReceiveAck(reply).value;
      ResentInOrder(file, w, t, p);
      if OnReply(t, p).Ok? {
        again := Datagrams(Resent(t, p));
      }
    }
    assert sent + [] == sent;
  }

  lemma UnsentAckFaults(s: SenderState, seqNum: u32)
    ensures OnAck(s, seqNum).Ok? || OnAck(s, seqNum) == Err(EmptyDeque)
  {
  }

  /** A reply either leaves the sender in order or makes it pop an empty deque, and that
      only by acknowledging a packet never sent. */
  lemma ReplyKeeps(file: seq<byte>, w: int, s: SenderState, p: Packet)
    requires SenderOk(file, w, s) && s.window != []
    ensures match OnReply(s, p)
            case Ok(t) => SenderOk(file, w, t) && t.dataSeqNum == s.dataSeqNum
            case Err(f) => f == EmptyDeque && p.header.typ != TIMEOUT && p.header.seqNum > s.dataSeqNum
  {
    hide SenderOk, OnAck, ChecksumOk;
    if p.header.seqNum <= s.dataSeqNum {
      AckMovesBase(file, w, s, p.header.seqNum);
    } else {
      PopFaultsIffUnsent(file, w, s, p.header.seqNum);
      UnsentAckFaults(s, p.header.seqNum);
    }
  }

  lemma AllSentAtExit(file: seq<byte>, w: int, s: SenderState)
    requires SenderOk(file, w, s) && Base(s) == NumChunks(file)
    ensures s.dataSeqNum == NumChunks(file)
  {
  }

  lemma StillRunning(file: seq<byte>, w: int, s: SenderState, t: SenderState)
    requires 1 <= w && SenderOk(file, w, s) && SenderOk(file, w, t)
    requires Running(file, s) && Base(t) == Base(s) && !CanSend(file, w, t)
    ensures t.window != []
  {
    ExitMeansAllAcked(file, w, s);
    ExitMeansAllAcked(file, w, t);
  }

  lemma TurnKeeps(file: seq<byte>, w: int, s: SenderState, reply: Reply)
    requires 1 <= w && NumChunks(file) < TWO32 && SenderOk(file, w, s) && Running(file, s)
    ensures var r := Turn(file, w, s, reply);
            && SenderOk(file, w, r.state) && s.dataSeqNum <= r.state.dataSeqNum
            && SentRange(file, r.sent, s.dataSeqNum, r.state.dataSeqNum)
            && r.outcome != Finished
  {
    hide SenderOk, SentRange, Fill, OnReply, Resent, ReceiveAck, Packets, NumChunks;
    FillKeeps(file, w, s);
    var (t, sent) := Fill(file, w, s);
    if ReceiveAck(reply).Ok? {
      var p := ReceiveAck(reply).value;
      StillRunning(file, w, s, t);
      ReplyKeeps(file, w, t, p);
      ResentAreData(file, w, t, p);
      SentRangeJoin(file, sent, Datagrams(Resent(t, p)), s.dataSeqNum, t.dataSeqNum, t.dataSeqNum);
    }
  }

  /** A call of sendData, whatever it receives: its window is always in order, it sends
      nothing but DATA packets of the file, it has sent each number up to dataSeqNum, and if
      it returns, it has sent every chunk and dropped every packet from the window. */
  lemma {:induction false} SendDataSendsFile(file: seq<byte>, w: int, s: SenderState, replies: seq<Reply>)
    requires 1 <= w && NumChunks(file) < TWO32 && SenderOk(file, w, s)
    ensures var r := Run(file, w, s, replies);
            && SenderOk(file, w, r.state) && s.dataSeqNum <= r.state.dataSeqNum
            && SentRange(file, r.sent, s.dataSeqNum, r.state.dataSeqNum)
            && (r.outcome == Finished ==> Base(r.state) == NumChunks(file) == r.state.dataSeqNum)
    decreases |replies|
  {
    hide SenderOk, SentRange, Fill, Turn, Packets, NumChunks, Base;
    ExitMeansAllAcked(file, w, s);
    if !Running(file, s) {
      NothingSent(file, s.dataSeqNum);
      AllSentAtExit(file, w, s);
    } else if replies == [] {
      FillKeeps(file, w, s);
    } else {
      TurnKeeps(file, w, s, replies[0]);
      var turn := Turn(file, w, s, replies[0]);
      if turn.outcome == Waiting {
        SendDataSendsFile(file, w, turn.state, replies[1..]);
        var r := Run(file, w, turn.state, replies[1..]);
        SentRangeJoin(file, turn.sent, r.sent, s.dataSeqNum, turn.state.dataSeqNum, r.state.dataSeqNum);
      }
    }
  }

  // ---- One reply more ----

  lemma {:induction false} FillTwice(file: seq<byte>, w: int, s: SenderState)
    ensures Fill(file, w, Fill(file, w, s).0) == (Fill(file, w, s).0, [])
    decreases |file| - s.offset
  {
    hide NextPacket, SendChunk, Serialize;
    FillOnce(file, w, s);
    if CanSend(file, w, s) {
      ChunkAdvances(file, s);
      FillTwice(file, w, SendChunk(file, s));
    }
  }

  lemma TurnFilled(file: seq<byte>, w: int, s: SenderState, reply: Reply)
    ensures var (t, sent) := Fill(file, w, s);
            var turn := Turn(file, w, t, reply);
            Turn(file, w, s, reply) == turn.(sent := sent + turn.sent)
  {
    hide Fill, OnReply, ReceiveAck, Resent;
    FillTwice(file, w, s);
    var (t, sent) := Fill(file, w, s);
    if ReceiveAck(reply).Ok? && OnReply(t, ReceiveAck(reply).value).Ok? {
      var again := Datagrams(Resent(t, ReceiveAck(reply).value));
      assert [] + again == again;
    }
    assert sent + [] == sent;
  }

  /** A call that still waits takes the next reply from the state it has reached: what it has
      sent stays sent, what the reply makes it send comes after that, and last what the
      window then has room for. A call that has ended is not touched. */
  lemma {:induction false} RunGoesOn(file: seq<byte>, w: int, s: SenderState, replies: seq<Reply>, reply: Reply)
    ensures var r := Run(file, w, s, replies);
            var turn := Turn(file, w, r.state, reply);
            var next := Run(file, w, turn.state, []);
            Run(file, w, s, replies + [reply]) ==
            if r.outcome != Waiting then r
            else if turn.outcome != Waiting then turn.(sent := r.sent + turn.sent)
            else next.(sent := r.sent + turn.sent + next.sent)
    decreases |replies|
  {
    hide Turn, Fill, Run, Running;
    RunOnce(file, w, s, replies);
    RunOnce(file, w, s, replies + [reply]);
    if Running(file, s) {
      if replies == [] {
        assert replies + [reply] == [reply] && [reply][1..] == [];
        TurnFilled(file, w, s, reply);
      } else {
        assert (replies + [reply])[1..] == replies[1..] + [reply];
        var turn := Turn(file, w, s, replies[0]);
        if turn.outcome == Waiting {
          RunGoesOn(file, w, turn.state, replies[1..], reply);
          var r := Run(file, w, turn.state, replies[1..]);
          var more := Turn(file, w, r.state, reply);
          var next := Run(file, w, more.state, []);
          assert turn.sent + (r.sent + more.sent) == (turn.sent + r.sent) + more.sent;
          assert turn.sent + (r.sent + more.sent + next.sent) == (turn.sent + r.sent) + more.sent + next.sent;
        }
      }
    }
  }
}
