/** The opt transfer can always finish: its receiver answers every DATA packet, repeated or
    not, so from every reachable state the network can let it complete. */
module OptLiveness {
  import opened Wire
  import opened Chunks
  import opened OptSender
  import opened Network
  import opened OptProtocol
  import Rcv = OptReceiver

  lemma {:induction false} ReachesTrans(c: Config, s: System, xs: seq<Step>, t: System,
                                           ys: seq<Step>, u: System)
    requires Reaches(c, s, xs, t) && Reaches(c, t, ys, u)
    ensures Reaches(c, s, xs + ys, u)
    decreases |xs|
  {
    hide Enabled, Apply;
    if xs == [] {
      assert xs + ys == ys;
    } else {
      assert (xs + ys)[1..] == xs[1..] + ys;
      ReachesTrans(c, Apply(c, s, xs[0]), xs[1..], t, ys, u);
    }
  }

  lemma OneStep(c: Config, s: System, step: Step)
    requires Enabled(c, s, step)
    ensures Reaches(c, s, [step], Apply(c, s, step))
  {
    hide Enabled, Apply;
    assert Reaches(c, Apply(c, s, step), [], Apply(c, s, step));
  }

  lemma {:induction false} OnTimeTrans(c: Config, s: System, xs: seq<Step>, t: System,
                                       ys: seq<Step>, u: System)
    requires ReachesOnTime(c, s, xs, t) && ReachesOnTime(c, t, ys, u)
    ensures ReachesOnTime(c, s, xs + ys, u)
    decreases |xs|
  {
    hide Enabled, Apply, OnTime;
    if xs == [] {
      assert xs + ys == ys;
    } else {
      assert (xs + ys)[1..] == xs[1..] + ys;
      OnTimeTrans(c, Apply(c, s, xs[0]), xs[1..], t, ys, u);
    }
  }

  lemma OneStepOnTime(c: Config, s: System, step: Step)
    requires Enabled(c, s, step) && OnTime(s, step)
    ensures ReachesOnTime(c, s, [step], Apply(c, s, step))
  {
    hide Enabled, Apply, OnTime;
    assert ReachesOnTime(c, Apply(c, s, step), [], Apply(c, s, step));
  }

  function FirstAge(s: System): int {
    if s.sender.window == [] then 0 else s.now - s.sender.window[0].sentTime
  }

  // One timeout, on time, that leaves the first packet of the window older or sends it again.
  lemma TimeoutFirst(c: Config, s: System) returns (f: Flight, t: System)
    requires c.Valid() && Inv(c, s) && Listening(c, s.sender)
    ensures var step := Timeout(s.now + SocketTimeout(s.sender.window, s.now));
            && Enabled(c, s, step) && OnTime(s, step) && t == Apply(c, s, step)
            && Inv(c, t) && Listening(c, t.sender)
            && t.sender.dataSeqNum == s.sender.dataSeqNum && Base(t.sender) == Base(s.sender)
            && t.receiver == s.receiver && t.now > s.now
            && 0 <= Base(s.sender) < NumChunks(c.file)
            && f == Sent(DataPacket(c.file, Base(s.sender)))
            && (f in t.data || FirstAge(s) < FirstAge(t) <= TIMEOUT_MS)
  {
    hide SenderIs, FlightOk, StoredAckOk, Stored, Hear, Sent, DataPacket, SocketTimeout;
    SocketTimeoutCorrect(s.sender.window, s.now);
    SenderRange(c, s);
    var now := s.now + SocketTimeout(s.sender.window, s.now);
    var p := s.sender.window[0];
    TimeoutIs(s, now);
    StepKeepsInv(c, s, Timeout(now));
    f, t := Sent(p.packet), Apply(c, s, Timeout(now));
    if Overdue(p, now) {
      assert p in s.sender.window;
    }
  }

  // While only timeouts happen, each on time, the first packet grows old and goes out again.
  lemma {:induction false} ResendFirst(c: Config, s: System) returns (steps: seq<Step>, f: Flight, t: System)
    requires c.Valid() && Inv(c, s) && Listening(c, s.sender)
    ensures ReachesOnTime(c, s, steps, t)
    ensures Inv(c, t) && Listening(c, t.sender)
    ensures t.sender.dataSeqNum == s.sender.dataSeqNum && Base(t.sender) == Base(s.sender)
    ensures 0 <= Base(s.sender) < NumChunks(c.file)
    ensures f == Sent(DataPacket(c.file, Base(s.sender))) && f in t.data
    decreases TIMEOUT_MS + 1 - FirstAge(s)
  {
    hide Inv, Listening, Apply, Enabled, FirstAge, ReachesOnTime, OnTime, SocketTimeout, Sent, DataPacket;
    f, t := TimeoutFirst(c, s);
    var step := Timeout(s.now + SocketTimeout(s.sender.window, s.now));
    OneStepOnTime(c, s, step);
    steps := [step];
    if f !in t.data {
      var u := t;
      var rest;
      rest, f, t := ResendFirst(c, u);
      OnTimeTrans(c, s, [step], u, rest, t);
      steps := [step] + rest;
    }
  }

  lemma DeliverFirst(c: Config, s: System, f: Flight) returns (ack: seq<byte>, t: System)
    requires c.Valid() && c.recvWindow >= 1 && Inv(c, s) && Listening(c, s.sender)
    requires 0 <= Base(s.sender) < NumChunks(c.file)
    requires f == Sent(DataPacket(c.file, Base(s.sender))) && f in s.data
    ensures var step := DeliverData(f, ack);
            && Enabled(c, s, step) && t == Apply(c, s, step)
            && OnTime(s, step)
            && Inv(c, t) && t.sender == s.sender && t.heard == s.heard && t.now == s.now
            && ack in t.acks && IsAckDatagram(ack, Base(s.sender))
  {
    hide SenderIs, Carries, FlightOk, StoredAckOk, Stored, Sent, Rcv.OnDatagram, IsAckDatagram;
    var b: u32 := Base(s.sender);
    SentCarries(c.file, b);
    SentUndamaged(DataPacket(c.file, b));
    DataArrives(c, s.receiver, b, f);
    ack := AckBytes(b);
    t := Apply(c, s, DeliverData(f, ack));
    StepKeepsInv(c, s, DeliverData(f, ack));
  }

  lemma BaseRises(file: seq<byte>, w: int, s: OptState, t: OptState, heard: set<int>)
    requires SenderIs(file, w, s, heard) && SenderIs(file, w, t, heard + {Base(s)})
    requires t.dataSeqNum == s.dataSeqNum && s.window != []
    ensures Base(t) > Base(s)
  {
    hide Packets, Offset, NumChunks;
    assert forall k | 0 <= k < Base(s) :: k in heard + {Base(s)};
  }

  lemma HearFirst(c: Config, s: System, ack: seq<byte>) returns (t: System)
    requires c.Valid() && Inv(c, s) && Listening(c, s.sender)
    requires 0 <= Base(s.sender) < NumChunks(c.file)
    requires ack in s.acks && IsAckDatagram(ack, Base(s.sender))
    ensures var step := DeliverAck(ack, s.now);
            && Enabled(c, s, step) && OnTime(s, step) && t == Apply(c, s, step)
            && Inv(c, t) && t.sender.dataSeqNum == s.sender.dataSeqNum
            && Base(t.sender) > Base(s.sender)
  {
    SocketTimeoutCorrect(s.sender.window, s.now);
    hide SenderIs, FlightOk, StoredAckOk, Stored, Hear, OnAck, IsAckDatagram;
    var b: u32 := Base(s.sender);
    StepKeepsInv(c, s, DeliverAck(ack, s.now));
    t := Apply(c, s, DeliverAck(ack, s.now));
    AckHeard(s, ack, b, s.now);
    SenderRange(c, s);
    AckKeeps(c.file, c.sendWindow, s.sender, s.heard, b);
    BaseRises(c.file, c.sendWindow, s.sender, t.sender, s.heard);
  }

  lemma NotFaulted(c: Config, s: System)
    requires Inv(c, s)
    ensures !s.faulted
    ensures s.sender.dataSeqNum + Base(s.sender) <= 2 * NumChunks(c.file)
  {
    hide SenderIs, FlightOk, StoredAckOk, Stored;
    SenderRange(c, s);
  }

  lemma MakeProgress(c: Config, s: System) returns (steps: seq<Step>, t: System)
    requires c.Valid() && c.recvWindow >= 1 && Inv(c, s) && Running(c.file, s.sender)
    ensures ReachesOnTime(c, s, steps, t) && Inv(c, t)
    ensures t.sender.dataSeqNum + Base(t.sender) > s.sender.dataSeqNum + Base(s.sender)
  {
    hide Inv, ReachesOnTime, Apply, SendChunk, IsAckDatagram, SocketTimeout;
    if CanSend(c.file, c.sendWindow, s.sender) {
      NotFaulted(c, s);
      SendKeepsInv(c, s, s.now);
      OneStepOnTime(c, s, Send(s.now));
      steps, t := [Send(s.now)], Apply(c, s, Send(s.now));
    } else {
      var xs, f, u := ResendFirst(c, s);
      var ack, v := DeliverFirst(c, u, f);
      OneStepOnTime(c, u, DeliverData(f, ack));
      t := HearFirst(c, v, ack);
      OneStepOnTime(c, v, DeliverAck(ack, v.now));
      var ys := xs + [DeliverData(f, ack)];
      OnTimeTrans(c, s, xs, u, [DeliverData(f, ack)], v);
      OnTimeTrans(c, s, ys, v, [DeliverAck(ack, v.now)], t);
      steps := ys + [DeliverAck(ack, v.now)];
    }
  }

  lemma AtOnce(c: Config, s: System)
    ensures Reaches(c, s, [], s) && ReachesOnTime(c, s, [], s)
  {
  }

  lemma {:induction false} Finish(c: Config, s: System) returns (steps: seq<Step>, t: System)
    requires c.Valid() && c.recvWindow >= 1 && Inv(c, s)
    ensures ReachesOnTime(c, s, steps, t) && Inv(c, t) && !Running(c.file, t.sender)
    decreases 2 * NumChunks(c.file) - s.sender.dataSeqNum - Base(s.sender) + 1
  {
    hide Inv, ReachesOnTime, Running, NumChunks;
    NotFaulted(c, s);
    if Running(c.file, s.sender) {
      var xs, u := MakeProgress(c, s);
      NotFaulted(c, u);
      var ys;
      ys, t := Finish(c, u);
      steps := xs + ys;
      OnTimeTrans(c, s, xs, u, ys, t);
    } else {
      steps, t := [], s;
      AtOnce(c, s);
    }
  }

  /** From every reachable state there is a run, every step of it on time, in which sendData's
      loop exits, and the receiver's map then reads as the file. */
  lemma AlwaysCanComplete(c: Config, s: System)
    requires c.Valid() && c.recvWindow >= 1 && Reachable(c, s)
    ensures exists steps, t :: ReachesOnTime(c, s, steps, t) && !Running(c.file, t.sender)
                               && ReadMap(t.receiver, NumChunks(c.file)) == c.file
  {
    hide Inv, Reaches, ReachesOnTime, Init, Running, ReadMap;
    ReachableInv(c, s);
    var steps, t := Finish(c, s);
    OnTimeReaches(c, s, steps, t);
    var s0: System, xs: seq<Step> :| Init(s0) && Reaches(c, s0, xs, s);
    ReachesTrans(c, s0, xs, s, steps, t);
    assert Reachable(c, t);
    Safety(c, t);
  }
}
