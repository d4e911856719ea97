/** What ACKs from elsewhere, such as the START ACK come a second time, do to a base transfer. */
module StrayAcks {
  import opened Wire
  import opened Chunks
  import opened BaseSender
  import opened BaseReceiver
  import opened Network
  import opened BaseProtocol
  import opened BaseLiveness
  import BaseTimers
  import R = BaseRound

  // ---- An ACK that ends the transfer too soon ----

  lemma NotDone(c: Config, s: System)
    requires Inv(c, s) && s.sender.dataSeqNum < NumChunks(c.file)
    ensures !Done(c, s)
  {
    hide FlightOk, AckOk, ReceiverOk, Packets;
    ExitMeansAllAcked(c.file, c.sendWindow, s.sender);
  }

  // On the way to the end there is a state with every chunk sent and the last not delivered.
  lemma {:induction false} LastSent(c: Config, s: System, steps: seq<Step>, t: System)
    returns (xs: seq<Step>, u: System)
    requires c.Valid() && Inv(c, s) && Reaches(c, s, steps, t) && Done(c, t)
    requires s.sender.dataSeqNum < NumChunks(c.file)
    ensures Reaches(c, s, xs, u) && Inv(c, u)
    ensures u.sender.dataSeqNum == NumChunks(c.file) && u.receiver.nextSeq < NumChunks(c.file)
    decreases |steps|
  {
    hide Inv, Done, Enabled, Apply;
    if steps == [] {
      NotDone(c, s);
      assert false;
    } else {
      var v := Apply(c, s, steps[0]);
      StepKeepsInv(c, s, steps[0]);
      NumbersGrow(c, s, steps[0]);
      OneStep(c, s, steps[0]);
      R.InvBounds(c, s);
      xs, u := [steps[0]], v;
      if v.sender.dataSeqNum < NumChunks(c.file) {
        var ys;
        ys, u := LastSent(c, v, steps[1..], t);
        ReachesTrans(c, s, xs, v, ys, u);
        xs := xs + ys;
      }
    }
  }

  lemma WholeFileIff(file: seq<byte>, before: seq<byte>, k: nat)
    ensures before + file[..Offset(file, k)] == before + file <==> k >= NumChunks(file)
  {
    ChunkSizes(file, k);
    assert |before + file[..Offset(file, k)]| == |before| + Offset(file, k);
    if k >= NumChunks(file) {
      assert file[..Offset(file, k)] == file;
    }
  }

  /** An ACK from elsewhere ends the transfer in silence, sendData returning with the file
      incomplete, iff all chunks have been sent, not all delivered, and it has the number
      that acknowledges all. */
  lemma LosesDataIff(c: Config, s: System, d: seq<byte>, a: u32)
    requires c.Valid() && Reachable(c, s) && Listening(c, s.sender) && IsAckDatagram(d, a)
    ensures var t := Hear(s, Datagram(d));
            !t.faulted && !Running(c.file, t.sender) && Output(t) != s.before + c.file
            <==> a == NumChunks(c.file) == s.sender.dataSeqNum && s.receiver.nextSeq < NumChunks(c.file)
  {
    hide SenderOk, FlightOk, AckOk, IsAckDatagram, OnAck, Hear, Reachable, Contents;
    ReachableInv(c, s);
    SenderBounds(c, s.sender);
    SendBounds(c, s.sender);
    ListeningHasWindow(c, s.sender);
    StrayAckSafeIff(c, s, d, a);
    if a <= s.sender.dataSeqNum {
      AckMovesBase(c.file, c.sendWindow, s.sender, a);
      AckArrives(c, s, d, a);
      ExitMeansAllAcked(c.file, c.sendWindow, Hear(s, Datagram(d)).sender);
      WholeFileIff(c.file, s.before, s.receiver.nextSeq);
    }
  }

  lemma ListensAtEnd(c: Config, s: System)
    requires Inv(c, s) && s.receiver.nextSeq < NumChunks(c.file) == s.sender.dataSeqNum
    ensures Listening(c, s.sender)
  {
    hide SenderOk, FlightOk, AckOk, ReceiverOk;
    SendBounds(c, s.sender);
  }

  /** The START ACK come a second time can be such an ACK. For every file that is not empty, a
      START whose number is the number of chunks opens a connection that comes to a state,
      the sender listening, in which the ACK of that START ends it so. */
  lemma LateStartAckLosesData(c: Config, d: seq<byte>) returns (s: System)
    requires c.Valid() && c.recvWindow >= 1 && c.file != [] && IsAckDatagram(d, NumChunks(c.file))
    ensures Reachable(c, s) && Listening(c, s.sender)
    ensures s.receiver.startAck == ToInt32(NumChunks(c.file)) && IsAckDatagram(d, ToU32(s.receiver.startAck))
    ensures var t := Hear(s, Datagram(d));
            !t.faulted && !Running(c.file, t.sender) && Output(t) != s.before + c.file
  {
    hide Reaches, Inv, Done, IsAckDatagram, Finishable, Listening, Running;
    var start: u32 := NumChunks(c.file);
    SmallConversions(start);
    FreshCanFinish(c, start);
    var steps, t := Finish(c, Fresh(start));
    var xs;
    xs, s := LastSent(c, Fresh(start), steps, t);
    assert Init(Fresh(start));
    RunKeepsInv(c, Fresh(start), xs, s);
    ListensAtEnd(c, s);
    LosesDataIff(c, s, d, start);
  }

  // ---- What an ACK from elsewhere can break ----

  ghost predicate FlightBeyond(file: seq<byte>, lo: int, n: u32, f: Flight) {
    exists i: u32 :: lo < i < n && Carries(file, i, f)
  }

  /** The sender has dropped the packet that the receiver awaits, and none is under way. */
  ghost predicate Lost(c: Config, s: System) {
    && !s.faulted
    && SenderOk(c.file, c.sendWindow, s.sender)
    && ReceiverOk(c.file, s.before, s.receiver)
    && s.receiver.nextSeq < Base(s.sender)
    && (forall f | f in s.data :: FlightBeyond(c.file, s.receiver.nextSeq, s.sender.dataSeqNum, f))
    && (forall d | d in s.acks :: AckOk(s.receiver.nextSeq, d))
  }

  lemma SentIsBeyond(file: seq<byte>, lo: int, i: u32, n: u32)
    requires lo < i < n
    ensures FlightBeyond(file, lo, n, Sent(DataPacket(file, i)))
  {
    hide Carries, Sent, DataPacket;
    SentCarries(file, i);
  }

  lemma StaysBeyond(file: seq<byte>, lo: int, n: u32, m: u32, f: Flight)
    requires FlightBeyond(file, lo, n, f) && n <= m
    ensures FlightBeyond(file, lo, m, f)
  {
    hide Carries;
    var i: u32 :| lo < i < n && Carries(file, i, f);
    assert i < m;
  }

  lemma LostSends(c: Config, s: System)
    requires c.Valid() && Lost(c, s) && Enabled(c, s, Send)
    ensures Lost(c, Apply(c, s, Send)) && Apply(c, s, Send).receiver == s.receiver
  {
    hide CrcU32, NextPacket, DataPacket, SendChunk, Offset, Sent, FlightBeyond, AckOk, ReceiverOk;
    SendChunkKeeps(c.file, c.sendWindow, s.sender);
    NextIsDataPacket(c.file, s.sender.dataSeqNum);
    var n: u32 := s.sender.dataSeqNum;
    var t := Apply(c, s, Send);
    SentIsBeyond(c.file, s.receiver.nextSeq, n, n + 1);
    forall f | f in t.data
      ensures FlightBeyond(c.file, s.receiver.nextSeq, n + 1, f)
    {
      if f in s.data {
        StaysBeyond(c.file, s.receiver.nextSeq, n, n + 1, f);
      }
    }
  }

  lemma WindowBeyond(c: Config, s: SenderState, lo: int, f: Flight)
    requires SenderOk(c.file, c.sendWindow, s) && lo < Base(s) && f in SentAll(s.window)
    ensures FlightBeyond(c.file, lo, s.dataSeqNum, f)
  {
    hide Sent, DataPacket, FlightBeyond;
    var p :| p in s.window && f == Sent(p);
    var k :| 0 <= k < |s.window| && s.window[k] == p;
    PacketAt(c.file, s.dataSeqNum, Base(s) + k);
    SentIsBeyond(c.file, lo, Base(s) + k, s.dataSeqNum);
  }

  lemma LostHears(c: Config, s: System, d: seq<byte>)
    requires c.Valid() && Lost(c, s) && Enabled(c, s, DeliverAck(d))
    ensures Apply(c, s, DeliverAck(d)) == s
  {
    hide SenderOk, OnAck, Hear, FlightBeyond, IsAckDatagram, ReceiverOk;
    var a: u32 :| a <= s.receiver.nextSeq && IsAckDatagram(d, a);
    ListeningHasWindow(c, s.sender);
    SenderBounds(c, s.sender);
    AckArrives(c, s, d, a);
    BaseTimers.StaleAckIsDropped(c, s.sender, a);
  }

  lemma AckNumbered(d: seq<byte>, nextSeq: int, a: u32)
    requires IsAckDatagram(d, a) && a <= nextSeq
    ensures AckOk(nextSeq, d)
  {
    hide IsAckDatagram;
  }

  lemma LostReceives(c: Config, s: System, f: Flight, ack: seq<byte>)
    requires c.Valid() && Lost(c, s) && Enabled(c, s, DeliverData(f, ack))
    ensures var t := Apply(c, s, DeliverData(f, ack));
            Lost(c, t) && t.receiver.nextSeq == s.receiver.nextSeq && t.before == s.before
  {
    hide SenderOk, Carries, OnDatagram, ReceiverOk, IsAckDatagram, AckOk;
    var i: u32 :| s.receiver.nextSeq < i < s.sender.dataSeqNum && Carries(c.file, i, f);
    SenderBounds(c, s.sender);
    DataArrives(c, s.before, s.receiver, i, f);
    var r := OnDatagram(c.recvWindow, s.receiver, f.bytes).value;
    if r.ack.Some? {
      AckNumbered(ack, r.state.nextSeq, r.ack.value);
    }
  }

  lemma LostDamages(c: Config, s: System, f: Flight, payload: seq<byte>)
    requires Lost(c, s) && Enabled(c, s, Damage(f, payload))
    ensures Lost(c, Apply(c, s, Damage(f, payload)))
  {
    hide SenderOk, AckOk, HeaderBytes, Burst, DataPacket, ReceiverOk;
    var i: u32 :| s.receiver.nextSeq < i < s.sender.dataSeqNum && Carries(c.file, i, f);
    var g := Flight(f.bytes[..HEADER_SIZE] + payload, true);
    assert g.bytes[..HEADER_SIZE] == f.bytes[..HEADER_SIZE] && g.bytes[HEADER_SIZE..] == payload;
    assert Carries(c.file, i, g);
  }

  lemma LostStartsIgnored(c: Config, s: System, d: seq<byte>)
    requires Lost(c, s) && Enabled(c, s, DeliverStart(d))
    ensures Apply(c, s, DeliverStart(d)) == s
  {
    hide SenderOk, FlightBeyond, AckOk, ParsePacket1, OnData;
  }

  lemma LostStays(c: Config, s: System, step: Step)
    requires c.Valid() && Lost(c, s) && Enabled(c, s, step)
    ensures var t := Apply(c, s, step);
            Lost(c, t) && t.receiver.nextSeq == s.receiver.nextSeq && t.before == s.before
  {
    hide SenderOk, ReceiverOk, FlightBeyond, AckOk, Hear, Receive, SendChunk, NextPacket;
    match step
    case Send => LostSends(c, s);
    case Timeout =>
      TimeoutResends(c, s);
      forall f | f in SentAll(s.sender.window)
        ensures FlightBeyond(c.file, s.receiver.nextSeq, s.sender.dataSeqNum, f)
      {
        WindowBeyond(c, s.sender, s.receiver.nextSeq, f);
      }
    case DeliverAck(d) => LostHears(c, s, d);
    case DeliverData(f, ack) => LostReceives(c, s, f, ack);
    case DeliverStart(d) => LostStartsIgnored(c, s, d);
    case LoseData(f) =>
    case LoseAck(d) =>
    case Damage(f, payload) => LostDamages(c, s, f, payload);
  }

  lemma {:induction false} LostForever(c: Config, s: System, steps: seq<Step>, t: System)
    requires c.Valid() && Lost(c, s) && Reaches(c, s, steps, t)
    ensures Lost(c, t) && t.receiver.nextSeq == s.receiver.nextSeq && t.before == s.before
    decreases |steps|
  {
    hide Lost, Enabled, Apply;
    if steps != [] {
      LostStays(c, s, steps[0]);
      LostForever(c, Apply(c, s, steps[0]), steps[1..], t);
    }
  }

  lemma LostIsIncomplete(c: Config, s: System)
    requires Lost(c, s)
    ensures Output(s) != s.before + c.file
  {
    hide FlightBeyond, AckOk, Contents;
    SenderBounds(c, s.sender);
    WholeFileIff(c.file, s.before, s.receiver.nextSeq);
  }

  lemma {:induction false} LoseAllData(c: Config, s: System) returns (steps: seq<Step>)
    requires !s.faulted
    ensures Reaches(c, s, steps, s.(data := {}))
    decreases |s.data|
  {
    if s.data == {} {
      AtOnce(c, s);
      steps := [];
      assert s.(data := {}) == s;
    } else {
      var f :| f in s.data;
      var t := Apply(c, s, LoseData(f));
      OneStep(c, s, LoseData(f));
      assert |t.data| == |s.data| - 1;
      var ys := LoseAllData(c, t);
      assert t.(data := {}) == s.(data := {});
      steps := [LoseData(f)] + ys;
      ReachesTrans(c, s, [LoseData(f)], t, ys, s.(data := {}));
    }
  }

  lemma NothingLeft(c: Config, s: System)
    requires !s.faulted && SenderOk(c.file, c.sendWindow, s.sender) && ReceiverOk(c.file, s.before, s.receiver)
    requires s.receiver.nextSeq < Base(s.sender) && s.data == {}
    requires forall d | d in s.acks :: AckOk(s.receiver.nextSeq, d)
    ensures Lost(c, s)
  {
  }

  lemma LostRuns(c: Config, s: System)
    requires Lost(c, s)
    ensures !s.faulted
  {
  }

  /** What StrayAckSafeIff excludes does harm: an ACK from elsewhere with a number above
      next_seq faults the sender if that packet has not been sent, and otherwise makes it
      drop the packet the receiver awaits. Then the network has only to lose what is under
      way, and whatever follows the file is never complete. */
  lemma StrayAckHarms(c: Config, s: System, d: seq<byte>, a: u32) returns (steps: seq<Step>, u: System)
    requires c.Valid() && Reachable(c, s) && Listening(c, s.sender) && IsAckDatagram(d, a)
    requires a > s.receiver.nextSeq
    ensures var t := Hear(s, Datagram(d));
            if a > s.sender.dataSeqNum then t.faulted
            else
              && Reaches(c, t, steps, u) && u.before == s.before
              && forall more, v | Reaches(c, u, more, v) :: !v.faulted && Output(v) != s.before + c.file
  {
    hide SenderOk, ReceiverOk, FlightOk, AckOk, OnAck, Hear, IsAckDatagram, Reachable, Reaches, Lost, Output;
    ReachableInv(c, s);
    StrayAckSafeIff(c, s, d, a);
    steps, u := [], s;
    if a <= s.sender.dataSeqNum {
      ListeningHasWindow(c, s.sender);
      AckMovesBase(c.file, c.sendWindow, s.sender, a);
      AckArrives(c, s, d, a);
      var t := Hear(s, Datagram(d));
      steps := LoseAllData(c, t);
      u := t.(data := {});
      NothingLeft(c, u);
      forall more, v | Reaches(c, u, more, v)
        ensures !v.faulted && Output(v) != s.before + c.file
      {
        LostForever(c, u, more, v);
        LostIsIncomplete(c, v);
        LostRuns(c, v);
      }
    }
  }
}
