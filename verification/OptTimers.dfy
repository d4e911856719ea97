/** When the opt sender retransmits. Timers are looked at only when receiveAck comes back
    empty: a packet is sent again iff that happens more than half a second after it was last
    sent. While nothing arrives no packet goes unsent for more than a second; while ACKs keep
    coming, none is ever sent again. */
module OptTimers {
  import opened Wire
  import opened Chunks
  import opened OptSender
  import opened Network
  import opened OptProtocol
  import OptTurn
  import BaseR = BaseReceiver
  import BaseS = BaseSender

  function Age(s: System, k: nat): int
    requires k < |s.sender.window|
  {
    s.now - s.sender.window[k].sentTime
  }

  /** Every packet not yet acknowledged was sent at most 500 ms ago. */
  predicate AgesOk(s: System) {
    forall k | 0 <= k < |s.sender.window| && !s.sender.window[k].acked :: Age(s, k) <= TIMEOUT_MS
  }

  /** One timeout from such a state: exactly the overdue packets are sent again, each at an
      age over 500 ms and, if recvfrom gave up on time, of at most a second; then the ages
      are in order again. */
  lemma TimeoutDeadline(c: Config, s: System, t: int)
    requires Inv(c, s) && AgesOk(s) && Enabled(c, s, Timeout(t))
    ensures var u := Apply(c, s, Timeout(t));
            && AgesOk(u) && u.now == t && s.now < t
            && u.sender.window == Retransmit(s.sender.window, t)
            && (forall k | 0 <= k < |s.sender.window| && Overdue(s.sender.window[k], t) ::
                  && Sent(s.sender.window[k].packet) in u.data
                  && 501 <= t - s.sender.window[k].sentTime <= TIMEOUT_MS + (t - s.now)
                  && (t == s.now + SocketTimeout(s.sender.window, s.now) ==>
                        t - s.sender.window[k].sentTime <= 1000))
  {
    hide Hear, SenderIs, FlightOk, StoredAckOk, Stored, Sent, SocketTimeout;
    TimeoutIs(s, t);
    SocketTimeoutCorrect(s.sender.window, s.now);
    var w := s.sender.window;
    forall k | 0 <= k < |w| && Overdue(w[k], t)
      ensures Sent(w[k].packet) in ResentAt(w, t)
    {
      assert w[k] in w;
    }
    forall k | 0 <= k < |w| && Overdue(w[k], t)
      ensures t - w[k].sentTime <= TIMEOUT_MS + (t - s.now)
    {
      assert Age(s, k) <= TIMEOUT_MS;
    }
  }

  function Timeouts(ts: seq<int>): (steps: seq<Step>)
    ensures |steps| == |ts|
    decreases |ts|
  {
    if ts == [] then [] else [Timeout(ts[0])] + Timeouts(ts[1..])
  }

  /** The packets, their order and their flags are those of w. */
  predicate SamePackets(w: seq<OptPacket>, v: seq<OptPacket>) {
    && |v| == |w|
    && (forall k | 0 <= k < |w| :: v[k].packet == w[k].packet && v[k].acked == w[k].acked)
  }

  lemma AgesMean(s: System, u: System)
    requires AgesOk(u)
    ensures u.now - s.now > TIMEOUT_MS ==>
              forall k | 0 <= k < |u.sender.window| && !u.sender.window[k].acked ::
                u.sender.window[k].sentTime > s.now
  {
    forall k | 0 <= k < |u.sender.window| && !u.sender.window[k].acked
      ensures u.now - u.sender.window[k].sentTime <= TIMEOUT_MS
    {
      assert Age(u, k) <= TIMEOUT_MS;
    }
  }

  /** A stretch of nothing but timeouts keeps all ages at 500 ms or less, so that once it
      has lasted longer than that, every packet not acknowledged has been sent again. */
  lemma {:induction false} StretchDeadline(c: Config, s: System, ts: seq<int>, u: System)
    requires c.Valid() && Inv(c, s) && AgesOk(s) && Reaches(c, s, Timeouts(ts), u)
    ensures AgesOk(u) && SamePackets(s.sender.window, u.sender.window)
    ensures s.now + |ts| <= u.now
    ensures u.now - s.now > TIMEOUT_MS ==>
              forall k | 0 <= k < |u.sender.window| && !u.sender.window[k].acked ::
                u.sender.window[k].sentTime > s.now
    decreases |ts|
  {
    hide Inv, Enabled, Apply, Age;
    if ts != [] {
      var step := Timeout(ts[0]);
      assert Timeouts(ts)[1..] == Timeouts(ts[1..]);
      TimeoutDeadline(c, s, ts[0]);
      StepKeepsInv(c, s, step);
      StretchDeadline(c, Apply(c, s, step), ts[1..], u);
    }
    AgesMean(s, u);
  }

  /** Each timeout of such a stretch: the state it meets, and what it sends again in time. */
  lemma {:induction false} StretchResends(c: Config, s: System, ts: seq<int>, u: System, j: nat)
    returns (v: System)
    requires c.Valid() && Inv(c, s) && AgesOk(s) && Reaches(c, s, Timeouts(ts), u) && j < |ts|
    ensures Reaches(c, s, Timeouts(ts[..j]), v) && Reaches(c, v, Timeouts(ts[j..]), u)
    ensures SamePackets(s.sender.window, v.sender.window)
    ensures Enabled(c, v, Timeout(ts[j]))
    ensures var x := Apply(c, v, Timeout(ts[j]));
            forall k | 0 <= k < |v.sender.window| && Overdue(v.sender.window[k], ts[j]) ::
              && Sent(v.sender.window[k].packet) in x.data
              && x.sender.window[k].sentTime == ts[j]
              && 501 <= ts[j] - v.sender.window[k].sentTime <= TIMEOUT_MS + (ts[j] - v.now)
              && (OnTime(v, Timeout(ts[j])) ==> ts[j] - v.sender.window[k].sentTime <= 1000)
    decreases j
  {
    hide Inv, Enabled, Apply, AgesOk, Overdue, SocketTimeout;
    var step := Timeout(ts[0]);
    assert Timeouts(ts)[1..] == Timeouts(ts[1..]);
    if j == 0 {
      v := s;
      assert ts[..0] == [] && ts[0..] == ts;
      TimeoutDeadline(c, s, ts[0]);
      assert Apply(c, s, step).sender.window == Retransmit(s.sender.window, ts[0]);
    } else {
      TimeoutDeadline(c, s, ts[0]);
      StepKeepsInv(c, s, step);
      var r := Apply(c, s, step);
      assert ts[1..][j - 1..] == ts[j..] && ts[1..][..j - 1] == ts[..j][1..];
      v := StretchResends(c, r, ts[1..], u, j - 1);
      assert Timeouts(ts[..j])[1..] == Timeouts(ts[1..][..j - 1]);
      assert ts[..j][0] == ts[0];
    }
  }

  // ---- Exactly when a packet is sent again ----

  /** When packet i of the window was last sent. */
  function SentTime(s: OptState, i: int): int
    requires Base(s) <= i < s.dataSeqNum
  {
    s.window[i - Base(s)].sentTime
  }

  /** i has been sent and no ACK for it has been heard. */
  predicate Unheard(s: System, i: int) {
    0 <= i < s.sender.dataSeqNum && i !in s.heard
  }

  lemma UnheardInWindow(c: Config, s: System, i: int)
    requires Inv(c, s) && Unheard(s, i)
    ensures Base(s.sender) <= i && !s.sender.window[i - Base(s.sender)].acked
    ensures s.sender.window[i - Base(s.sender)].packet == DataPacket(c.file, i)
    ensures s.sender.window[i - Base(s.sender)] in s.sender.window
    ensures SentTime(s.sender, i) <= s.now
  {
    hide FlightOk, StoredAckOk, Stored, Packets, DataPacket;
    SenderRange(c, s);
    SeqNumsOf(c.file, c.sendWindow, s.sender, s.heard);
    assert s.sender.window[i - Base(s.sender)].acked == (Base(s.sender) + (i - Base(s.sender)) in s.heard);
  }

  /** A timeout that comes more than 500 ms after sent. */
  predicate Expires(step: Step, sent: int) {
    step.Timeout? && step.t - sent > TIMEOUT_MS
  }

  /** What has been sent and heard stays so, and the clock never goes back. */
  lemma HeardGrows(c: Config, s: System, step: Step)
    requires c.Valid() && Inv(c, s) && Enabled(c, s, step)
    ensures var u := Apply(c, s, step);
            && s.heard <= u.heard && s.now <= u.now
            && u.sender.dataSeqNum == s.sender.dataSeqNum + if step.Send? then 1 else 0
  {
    hide SenderIs, FlightOk, StoredAckOk, Stored, Hear, Receive, IsAckDatagram, SendChunk, SocketTimeout;
    match step
    case Send(t) => SendKeepsInv(c, s, t);
    case Timeout(t) =>
      SocketTimeoutCorrect(s.sender.window, s.now);
      TimeoutIs(s, t);
    case DeliverAck(d, t) =>
      var a := AckNumber(c, s, d);
      AckHeard(s, d, a, t);
    case DeliverStartAck(d, t) =>
      var a: u32 :| a >= NumChunks(c.file) && IsAckDatagram(d, a);
      AckHeard(s, d, a, t);
    case DeliverData(f, ack) => ReceiveKeepsSender(c, s, f.bytes, ack);
    case DeliverStart(d) => ReceiveKeepsSender(c, s, d, []);
    case LoseData(f) =>
    case LoseAck(d) =>
    case Damage(f, payload) =>
  }

  lemma SendKeepsTimes(c: Config, s: System, t: int, i: int)
    requires c.Valid() && Inv(c, s) && Enabled(c, s, Send(t)) && Base(s.sender) <= i < s.sender.dataSeqNum
    ensures var u := Apply(c, s, Send(t));
            && Base(u.sender) <= i < u.sender.dataSeqNum
            && SentTime(u.sender, i) == SentTime(s.sender, i)
  {
    hide NextPacket, Inv;
    SendKeepsInv(c, s, t);
  }

  lemma AckKeepsTimes(c: Config, s: System, d: seq<byte>, a: u32, t: int, i: int)
    requires Inv(c, s) && IsAckDatagram(d, a) && Base(s.sender) <= i < s.sender.dataSeqNum
    ensures var u := Hear(s, BaseS.Datagram(d), t);
            && u.sender.dataSeqNum == s.sender.dataSeqNum
            && (Base(u.sender) <= i ==> SentTime(u.sender, i) == SentTime(s.sender, i))
  {
    hide SenderIs, FlightOk, StoredAckOk, Stored, Hear, OnAck, IsAckDatagram;
    AckHeard(s, d, a, t);
    AckKeeps(c.file, c.sendWindow, s.sender, s.heard, a);
  }

  lemma TimeoutSetsTime(c: Config, s: System, t: int, i: int)
    requires Inv(c, s) && Unheard(s, i)
    ensures var u := Hear(s, BaseS.NoReply, t);
            var expires := Expires(Timeout(t), SentTime(s.sender, i));
            && Base(s.sender) <= i && Base(u.sender) <= i < u.sender.dataSeqNum
            && SentTime(u.sender, i) == (if expires then t else SentTime(s.sender, i))
            && (expires ==> Sent(DataPacket(c.file, i)) in u.data)
  {
    hide Inv, Hear, Sent, DataPacket;
    UnheardInWindow(c, s, i);
    TimeoutIs(s, t);
  }

  lemma OnlyTimeoutsExpire(step: Step, sent: int)
    ensures !step.Timeout? ==> !Expires(step, sent)
  {
  }

  /** Of all steps only a timeout more than 500 ms after packet i was sent touches its timer;
      it puts the packet on the network and takes its own time for the new one. */
  lemma TimerStep(c: Config, s: System, step: Step, i: int)
    requires c.Valid() && Inv(c, s) && Enabled(c, s, step)
    requires 0 <= i < s.sender.dataSeqNum && i !in Apply(c, s, step).heard
    ensures var u := Apply(c, s, step);
            && Inv(c, u) && Unheard(s, i) && Unheard(u, i)
            && Base(s.sender) <= i && Base(u.sender) <= i
            && s.now <= u.now
            && SentTime(u.sender, i) ==
               (if Expires(step, SentTime(s.sender, i)) then step.t else SentTime(s.sender, i))
            && (Expires(step, SentTime(s.sender, i)) ==> Sent(DataPacket(c.file, i)) in u.data)
  {
    hide Inv, Sent, DataPacket, SentTime, Expires, Hear, Receive, IsAckDatagram, SendChunk, Base;
    StepKeepsInv(c, s, step);
    var u := Apply(c, s, step);
    HeardGrows(c, s, step);
    UnheardInWindow(c, s, i);
    UnheardInWindow(c, u, i);
    OnlyTimeoutsExpire(step, SentTime(s.sender, i));
    match step
    case Send(t) => SendKeepsTimes(c, s, t, i);
    case Timeout(t) => TimeoutSetsTime(c, s, t, i);
    case DeliverAck(d, t) =>
      var a := AckNumber(c, s, d);
      AckKeepsTimes(c, s, d, a, t, i);
    case DeliverStartAck(d, t) =>
      var a: u32 :| a >= NumChunks(c.file) && IsAckDatagram(d, a);
      AckKeepsTimes(c, s, d, a, t, i);
    case DeliverData(f, ack) => ReceiveKeepsSender(c, s, f.bytes, ack);
    case DeliverStart(d) => ReceiveKeepsSender(c, s, d, []);
    case LoseData(f) =>
    case LoseAck(d) =>
    case Damage(f, payload) =>
  }

  lemma {:induction false} RunGrows(c: Config, s: System, steps: seq<Step>, u: System)
    requires c.Valid() && Inv(c, s) && Reaches(c, s, steps, u)
    ensures s.heard <= u.heard && s.now <= u.now && s.sender.dataSeqNum <= u.sender.dataSeqNum
    decreases |steps|
  {
    hide Inv, Enabled, Apply;
    if steps != [] {
      HeardGrows(c, s, steps[0]);
      StepKeepsInv(c, s, steps[0]);
      RunGrows(c, Apply(c, s, steps[0]), steps[1..], u);
    }
  }

  lemma ExpiryIsLater(step: Step, sent: int)
    ensures Expires(step, sent) ==> step.Timeout? && step.t > sent
  {
  }

  lemma {:induction false} NotBelow(file: seq<byte>, w: seq<OptPacket>, from: u32, i: u32, now: int)
    requires from + |w| < TWO32 && i < from
    requires forall k | 0 <= k < |w| :: w[k].packet == DataPacket(file, from + k)
    ensures BaseS.DataBytes(file, i) !in ResentBytes(w, now)
    decreases |w|
  {
    hide DataPacket, Serialize, Overdue;
    if w != [] {
      assert w[0].packet == DataPacket(file, from + 0);
      assert Serialize(w[0].packet) == BaseS.DataBytes(file, from);
      if BaseS.DataBytes(file, i) == BaseS.DataBytes(file, from) {
        BaseS.DataBytesDiffer(file, i, from);
      }
      NotBelow(file, w[1..], from + 1, i, now);
    }
  }

  lemma {:induction false} ResentBytesIff(file: seq<byte>, w: seq<OptPacket>, from: u32, i: u32, now: int)
    requires from + |w| < TWO32 && from <= i
    requires forall k | 0 <= k < |w| :: w[k].packet == DataPacket(file, from + k)
    ensures BaseS.DataBytes(file, i) in ResentBytes(w, now) <==> i - from < |w| && Overdue(w[i - from], now)
    decreases |w|
  {
    hide DataPacket, Serialize, Overdue;
    if w != [] {
      assert w[0].packet == DataPacket(file, from + 0);
      assert Serialize(w[0].packet) == BaseS.DataBytes(file, from);
      if i == from {
        NotBelow(file, w[1..], from + 1, i, now);
      } else {
        if BaseS.DataBytes(file, i) == BaseS.DataBytes(file, from) {
          BaseS.DataBytesDiffer(file, i, from);
        }
        ResentBytesIff(file, w[1..], from + 1, i, now);
      }
    }
  }

  lemma TimeoutSendsIff(c: Config, s: System, t: int, i: u32)
    requires c.Valid() && Inv(c, s) && Unheard(s, i)
    ensures Base(s.sender) <= i
    ensures BaseS.DataBytes(c.file, i) in OptTurn.HearSends(s.sender.window, BaseS.NoReply, t)
            <==> Expires(Timeout(t), SentTime(s.sender, i))
  {
    hide Inv, BaseS.ReceiveAck, DataPacket, ResentBytes, BaseS.DataBytes;
    TimeoutReply();
    UnheardInWindow(c, s, i);
    SenderRange(c, s);
    ResentBytesIff(c.file, s.sender.window, Base(s.sender), i, t);
  }

  lemma SendSendsNext(c: Config, s: System, i: u32)
    requires c.Valid() && Inv(c, s) && CanSend(c.file, c.sendWindow, s.sender) && i < s.sender.dataSeqNum
    ensures BaseS.DataBytes(c.file, i) !in [Serialize(NextPacket(c.file, s.sender.offset, s.sender.dataSeqNum))]
  {
    hide NextPacket, DataPacket, Serialize, SenderIs, FlightOk, StoredAckOk, Stored;
    FirstOfFill(c.file, c.sendWindow, s.sender, s.heard);
    if BaseS.DataBytes(c.file, i) == BaseS.DataBytes(c.file, s.sender.dataSeqNum) {
      BaseS.DataBytesDiffer(c.file, i, s.sender.dataSeqNum);
    }
  }

  lemma AckSendsNothing(s: System, d: seq<byte>, a: u32, t: int)
    requires IsAckDatagram(d, a)
    ensures OptTurn.HearSends(s.sender.window, BaseS.Datagram(d), t) == []
  {
    hide ResentBytes, BaseS.ReceiveAck, IsAckDatagram;
    AckIsNoTimeout(d, a);
  }

  // What a step hands to sendto holds the datagram of packet i iff the packet expires in it.
  lemma StepSendsAgainIff(c: Config, s: System, step: Step, i: u32)
    requires c.Valid() && Inv(c, s) && Enabled(c, s, step)
    requires i < s.sender.dataSeqNum && i !in Apply(c, s, step).heard
    ensures Base(s.sender) <= i
    ensures BaseS.DataBytes(c.file, i) in OptTurn.StepSends(c, s, step) <==> Expires(step, SentTime(s.sender, i))
  {
    hide Inv, OptTurn.HearSends, BaseS.DataBytes, SentTime, Hear, Receive, SendChunk, IsAckDatagram;
    HeardGrows(c, s, step);
    UnheardInWindow(c, s, i);
    OnlyTimeoutsExpire(step, SentTime(s.sender, i));
    match step
    case Send(t) => SendSendsNext(c, s, i);
    case Timeout(t) => TimeoutSendsIff(c, s, t, i);
    case DeliverAck(d, t) =>
      var a := AckNumber(c, s, d);
      AckSendsNothing(s, d, a, t);
    case DeliverStartAck(d, t) =>
      var a: u32 :| a >= NumChunks(c.file) && IsAckDatagram(d, a);
      AckSendsNothing(s, d, a, t);
    case DeliverData(f, ack) =>
    case DeliverStart(d) =>
    case LoseData(f) =>
    case LoseAck(d) =>
    case Damage(f, payload) =>
  }

  lemma ExpiresInRest(steps: seq<Step>, sent: int)
    requires steps != []
    ensures (exists j :: 0 <= j < |steps| && Expires(steps[j], sent)) <==>
            Expires(steps[0], sent) || exists j :: 0 <= j < |steps[1..]| && Expires(steps[1..][j], sent)
  {
    hide Expires;
    if j :| 0 <= j < |steps| && Expires(steps[j], sent) {
      if j > 0 {
        assert steps[1..][j - 1] == steps[j];
      }
    }
    if j :| 0 <= j < |steps[1..]| && Expires(steps[1..][j], sent) {
      assert steps[j + 1] == steps[1..][j];
    }
  }

  /** Over any run, a packet that stays unacknowledged is sent again, its datagram and its timer
      alike, iff some receiveAck of the run times out more than 500 ms after the packet was
      last sent before it. The age alone does not do it, whatever else the sender hears. */
  lemma {:induction false} SentAgainIff(c: Config, s: System, steps: seq<Step>, u: System, i: u32)
    requires c.Valid() && Inv(c, s) && Reaches(c, s, steps, u)
    requires i < s.sender.dataSeqNum && i !in u.heard
    ensures Base(s.sender) <= i && Base(u.sender) <= i < u.sender.dataSeqNum
    ensures SentTime(s.sender, i) <= SentTime(u.sender, i)
    ensures SentTime(u.sender, i) != SentTime(s.sender, i) <==>
            exists j :: 0 <= j < |steps| && Expires(steps[j], SentTime(s.sender, i))
    ensures BaseS.DataBytes(c.file, i) in OptTurn.RunSends(c, s, steps, u) <==>
            exists j :: 0 <= j < |steps| && Expires(steps[j], SentTime(s.sender, i))
    decreases |steps|
  {
    hide Inv, Enabled, Apply, Expires, SentTime, Base, BaseS.DataBytes, OptTurn.StepSends;
    RunGrows(c, s, steps, u);
    RunKeepsInv(c, s, steps, u);
    UnheardInWindow(c, s, i);
    UnheardInWindow(c, u, i);
    if steps != [] {
      var v := Apply(c, s, steps[0]);
      StepKeepsInv(c, s, steps[0]);
      RunGrows(c, v, steps[1..], u);
      TimerStep(c, s, steps[0], i);
      StepSendsAgainIff(c, s, steps[0], i);
      SentAgainIff(c, v, steps[1..], u, i);
      ExpiryIsLater(steps[0], SentTime(s.sender, i));
      ExpiresInRest(steps, SentTime(s.sender, i));
    }
  }

  lemma HeardIsSent(c: Config, s: System)
    requires Inv(c, s)
    ensures s.sender.dataSeqNum as int !in s.heard
  {
    hide FlightOk, StoredAckOk, Stored, Packets;
  }

  /** A first send starts the packet's timer at the time it is sent, and touches no other. */
  lemma SendStartsTimer(c: Config, s: System, t: int)
    requires c.Valid() && Inv(c, s) && Enabled(c, s, Send(t))
    ensures var u := Apply(c, s, Send(t));
            && u.sender.dataSeqNum == s.sender.dataSeqNum + 1 && Unheard(u, s.sender.dataSeqNum)
            && Base(u.sender) <= s.sender.dataSeqNum && SentTime(u.sender, s.sender.dataSeqNum) == t
            && (forall i | Base(s.sender) <= i < s.sender.dataSeqNum ::
                  Base(u.sender) <= i && SentTime(u.sender, i) == SentTime(s.sender, i))
  {
    hide NextPacket, DataPacket, SenderIs, FlightOk, StoredAckOk, Stored;
    HeardIsSent(c, s);
    SendKeepsInv(c, s, t);
    SendStamps(c.file, c.sendWindow, s.sender, s.heard, t);
  }

  /** From its first send at time t on, a packet that stays unacknowledged goes out again iff
      some receiveAck times out more than 500 ms after t. */
  lemma FirstSentAgainIff(c: Config, s: System, t: int, steps: seq<Step>, u: System)
    requires c.Valid() && Inv(c, s) && Enabled(c, s, Send(t))
    requires Reaches(c, Apply(c, s, Send(t)), steps, u) && s.sender.dataSeqNum as int !in u.heard
    ensures BaseS.DataBytes(c.file, s.sender.dataSeqNum)
              in OptTurn.RunSends(c, Apply(c, s, Send(t)), steps, u) <==>
            exists j :: 0 <= j < |steps| && steps[j].Timeout? && steps[j].t - t > 500
  {
    hide Inv, Enabled, Apply, Reaches, SentTime, BaseS.DataBytes, OptTurn.RunSends, Unheard;
    var v := Apply(c, s, Send(t));
    StepKeepsInv(c, s, Send(t));
    SendStartsTimer(c, s, t);
    SentAgainIff(c, v, steps, u, s.sender.dataSeqNum);
  }

  /** Filling the window leaves no packet older than it was: if none was more than 500 ms old
      before, none is when the sender comes to listen. */
  lemma FillKeepsAges(c: Config, s: System, f: System)
    requires c.Valid() && Inv(c, s) && AgesOk(s)
    requires f.sender == Fill(c.file, c.sendWindow, s.sender, s.now).0 && f.now == s.now
    ensures AgesOk(f)
  {
    hide SenderIs, FlightOk, StoredAckOk, Stored, Fill, DataPacket, BaseS.InOrder;
    var added := FillInOrder(c.file, c.sendWindow, s.sender, s.heard, s.now);
    forall k | 0 <= k < |f.sender.window| && !f.sender.window[k].acked
      ensures Age(f, k) <= TIMEOUT_MS
    {
      if k < |s.sender.window| {
        assert Age(s, k) <= TIMEOUT_MS;
      } else {
        assert f.sender.window[k] == added[k - |s.sender.window|];
      }
    }
  }

  // ---- Without timeouts there are no retransmissions ----

  lemma AckHeardBefore(file: seq<byte>, w: int, s: OptState, heard: set<int>, a: u32)
    requires SenderIs(file, w, s, heard) && a as int in heard
    ensures OnAck(s, a) == s
  {
    hide Packets, Offset, NumChunks, Mark, Advance;
    SeqNumsOf(file, w, s, heard);
    var j := AckShape(s.window, Base(s), a);
    assert j == 0;
    assert OnAck(s, a).window == s.window;
  }

  /** A repeated ACK takes time and does nothing else. */
  lemma RepeatedAckOnlyTakesTime(c: Config, s: System, d: seq<byte>, a: u32, t: int)
    requires c.Valid() && Inv(c, s) && IsAckDatagram(d, a) && a as int in s.heard
    requires Enabled(c, s, DeliverAck(d, t))
    ensures Apply(c, s, DeliverAck(d, t)) == s.(now := t)
  {
    hide Hear, FlightOk, StoredAckOk, Stored, IsAckDatagram, OnAck, Packets;
    AckHeard(s, d, a, t);
    AckHeardBefore(c.file, c.sendWindow, s.sender, s.heard, a);
    assert s.heard + {a as int} == s.heard;
  }

  /** So with repeats of a single old ACK a millisecond apart, inside every socket timeout,
      time passes without end and nothing is sent, however old the packets are. */
  lemma {:induction false} AcksPostponeRetransmission(c: Config, s: System, d: seq<byte>, a: u32, k: nat)
    returns (steps: seq<Step>)
    requires c.Valid() && Inv(c, s) && Listening(c, s.sender)
    requires d in s.acks && IsAckDatagram(d, a) && a as int in s.heard
    ensures |steps| == k && (forall i | 0 <= i < k :: steps[i] == DeliverAck(d, s.now + i + 1))
    ensures ReachesOnTime(c, s, steps, s.(now := s.now + k))
    decreases k
  {
    hide SenderIs, FlightOk, StoredAckOk, Stored, Apply, IsAckDatagram, SocketTimeout;
    if k == 0 {
      steps := [];
      assert s.(now := s.now + k) == s;
    } else {
      var step := DeliverAck(d, s.now + 1);
      SocketTimeoutCorrect(s.sender.window, s.now);
      RepeatedAckOnlyTakesTime(c, s, d, a, s.now + 1);
      StepKeepsInv(c, s, step);
      var rest := AcksPostponeRetransmission(c, s.(now := s.now + 1), d, a, k - 1);
      steps := [step] + rest;
      assert steps[1..] == rest;
    }
  }

  /** An ACK for a number that is no DATA packet's takes time and does nothing else. */
  lemma StrayAckOnlyTakesTime(c: Config, s: System, d: seq<byte>, t: int)
    requires c.Valid() && Inv(c, s) && Enabled(c, s, DeliverStartAck(d, t))
    ensures Apply(c, s, DeliverStartAck(d, t)) == s.(now := t)
  {
    hide Hear, FlightOk, StoredAckOk, Stored, IsAckDatagram, OnAck, SenderIs;
    var a: u32 :| a >= NumChunks(c.file) && IsAckDatagram(d, a);
    SenderRange(c, s);
    AckHeard(s, d, a, t);
    AckKeeps(c.file, c.sendWindow, s.sender, s.heard, a);
  }

  /** k repeats of the START ACK, a millisecond apart. */
  predicate Repeats(d: seq<byte>, now: int, steps: seq<Step>) {
    forall i | 0 <= i < |steps| :: steps[i] == DeliverStartAck(d, now + i + 1)
  }

  lemma {:induction false} StartAcksPostpone(c: Config, s: System, d: seq<byte>, k: nat)
    returns (steps: seq<Step>)
    requires c.Valid() && Inv(c, s) && Listening(c, s.sender) && StrayAck(c, d)
    ensures |steps| == k && Repeats(d, s.now, steps)
    ensures ReachesOnTime(c, s, steps, s.(now := s.now + k))
    decreases k
  {
    hide SenderIs, FlightOk, StoredAckOk, Stored, Apply, StrayAck, SocketTimeout;
    if k == 0 {
      steps := [];
      assert s.(now := s.now + k) == s;
    } else {
      var step := DeliverStartAck(d, s.now + 1);
      SocketTimeoutCorrect(s.sender.window, s.now);
      StrayAckOnlyTakesTime(c, s, d, s.now + 1);
      StepKeepsInv(c, s, step);
      var rest := StartAcksPostpone(c, s.(now := s.now + 1), d, k - 1);
      steps := [step] + rest;
      assert steps[1..] == rest;
    }
  }

  /** k milliseconds can pass, d coming again in each, while nothing is sent and nothing else
      changes. */
  ghost predicate CanWait(c: Config, s: System, d: seq<byte>, k: nat) {
    exists steps :: |steps| == k && Repeats(d, s.now, steps) && ReachesOnTime(c, s, steps, s.(now := s.now + k))
  }

  lemma Waits(c: Config, s: System, d: seq<byte>, k: nat)
    requires c.Valid() && Inv(c, s) && Listening(c, s.sender) && StrayAck(c, d)
    ensures CanWait(c, s, d, k)
  {
    hide Inv, Listening, ReachesOnTime, StrayAck, Repeats;
    var steps := StartAcksPostpone(c, s, d, k);
  }

  /** From every reachable state in which the sender listens, repeats of the ACK of the
      connection's own START, which has no DATA packet's number, keep the first packet of the
      window from being sent again for any length of time, though its timer runs out after
      half a second. */
  lemma RetransmissionCanBePutOffForever(c: Config, s: System, d: seq<byte>)
    requires c.Valid() && Reachable(c, s) && Listening(c, s.sender)
    requires IsAckDatagram(d, ToU32(s.receiver.startAck)) && ToU32(s.receiver.startAck) >= NumChunks(c.file)
    ensures s.sender.window != [] && !s.sender.window[0].acked
    ensures forall k: nat :: CanWait(c, s, d, k)
  {
    hide Inv, Reachable, Listening, CanWait, IsAckDatagram;
    ReachableInv(c, s);
    WindowNonempty(c, s);
    assert StrayAck(c, d);
    forall k: nat
      ensures CanWait(c, s, d, k)
    {
      Waits(c, s, d, k);
    }
  }

  lemma StartNumberSurvives(start: u32)
    ensures ToU32(ToInt32(start)) == start
  {
  }

  /** Every transfer of a file that is not empty, opened by a START with any such number, comes
      to such a state at once, with nothing heard and nothing delivered. */
  lemma EveryTransferCanStarve(c: Config, start: u32, d: seq<byte>) returns (s: System)
    requires c.Valid() && c.file != [] && start >= NumChunks(c.file) && IsAckDatagram(d, start)
    ensures Reachable(c, s) && Listening(c, s.sender)
    ensures s.heard == {} && s.receiver == Fresh(start).receiver
    ensures forall k: nat :: CanWait(c, s, d, k)
  {
    hide Inv, Reaches, CanWait, Fill, CanSend, IsAckDatagram;
    assert Init(Fresh(start));
    InitInv(c, Fresh(start));
    var steps;
    steps, s := OptTurn.FillRuns(c, Fresh(start), 0);
    OptTurn.RunningStill(c, Fresh(start), s);
    StartNumberSurvives(start);
    RetransmissionCanBePutOffForever(c, s, d);
  }
}
