/** The opt protocol and the loop of sendData are the same sender: a turn of the loop, as the
    class SenderOpt performs it, is a run of Send steps and one Timeout or
    DeliverAck; and over any run of the protocol that is on time, whatever happens between
    its steps, the sender does what sendData does with the replies it meets. */
module OptTurn {
  import opened Wire
  import opened Chunks
  import opened OptSender
  import opened Network
  import opened OptProtocol
  import opened OptLiveness
  import BaseS = BaseSender
  import Rcv = OptReceiver

  /** Waiting longer before updateSocketTimeout never makes the time-out come earlier. */
  lemma TimeoutMonotonic(w: seq<OptPacket>, a: int, b: int)
    requires a <= b
    ensures a + SocketTimeout(w, a) <= b + SocketTimeout(w, b)
  {
    hide SocketTimeout;
    SocketTimeoutCorrect(w, a);
    SocketTimeoutCorrect(w, b);
    if SocketTimeout(w, b) != TIMEOUT_MS {
      var p :| p in w && !p.acked && Remaining(p, b) > 0 && SocketTimeout(w, b) == Remaining(p, b);
      assert Remaining(p, a) > 0;
    }
  }

  lemma {:induction false} FlightsOfOverdue(w: seq<OptPacket>, now: int)
    ensures Flights(ResentBytes(w, now)) == ResentAt(w, now)
    decreases |w|
  {
    hide Serialize, Overdue;
    if w != [] {
      FlightsOfOverdue(w[1..], now);
      var first := if Overdue(w[0], now) then [Serialize(w[0].packet)] else [];
      FlightsJoin(first, ResentBytes(w[1..], now));
      assert forall p :: p in w <==> p == w[0] || p in w[1..];
      assert Overdue(w[0], now) ==> Flights(first) == {Sent(w[0].packet)};
    }
  }

  lemma {:induction false} FillRuns(c: Config, s: System, now: int) returns (steps: seq<Step>, f: System)
    requires c.Valid() && Inv(c, s) && s.now <= now
    ensures var (t, sent) := Fill(c.file, c.sendWindow, s.sender, now);
            f == s.(sender := t, data := s.data + Flights(sent), now := f.now) && s.now <= f.now <= now
    ensures Reaches(c, s, steps, f) && Inv(c, f) && Base(f.sender) == Base(s.sender)
    ensures !CanSend(c.file, c.sendWindow, f.sender)
    decreases |c.file| - s.sender.offset
  {
    hide Inv, SendChunk, NextPacket, Serialize, Fill, Reaches;
    FillOnce(c.file, c.sendWindow, s.sender, now);
    if CanSend(c.file, c.sendWindow, s.sender) {
      NotFaulted(c, s);
      ChunkAdvances(c.file, s.sender, now);
      SendKeepsInv(c, s, now);
      OneStep(c, s, Send(now));
      var p := NextPacket(c.file, s.sender.offset, s.sender.dataSeqNum);
      var u := Apply(c, s, Send(now));
      var rest;
      rest, f := FillRuns(c, u, now);
      ReachesTrans(c, s, [Send(now)], u, rest, f);
      steps := [Send(now)] + rest;
      var (t, sent) := Fill(c.file, c.sendWindow, u.sender, now);
      FlightsJoin([Serialize(p)], sent);
      assert Flights([Serialize(p)]) == {Sent(p)};
      assert s.data + Flights([Serialize(p)] + sent) == u.data + Flights(sent);
    } else {
      AtOnce(c, s);
      steps, f := [], s;
    }
  }

  lemma RunningStill(c: Config, s: System, f: System)
    requires Inv(c, s) && Inv(c, f) && Running(c.file, s.sender) && Base(f.sender) == Base(s.sender)
    ensures Running(c.file, f.sender) && !f.faulted
  {
    hide SenderIs, FlightOk, StoredAckOk, Stored;
    RunningIffOutstanding(c.file, c.sendWindow, s.sender, s.heard);
    RunningIffOutstanding(c.file, c.sendWindow, f.sender, f.heard);
  }

  /** A turn that meets an ACK in the network, or nothing before its socket timeout has run
      out, never faults, and is such a run. */
  lemma TurnIsRun(c: Config, s: System, tick: Tick) returns (steps: seq<Step>, u: System)
    requires c.Valid() && Inv(c, s) && Running(c.file, s.sender)
    requires s.now <= tick.sendTime <= tick.wakeTime
    requires tick.reply.Datagram? ==> tick.reply.bytes in s.acks
    requires tick.reply.NoReply? ==>
               var t := Fill(c.file, c.sendWindow, s.sender, tick.sendTime).0;
               tick.sendTime + SocketTimeout(t.window, tick.sendTime) <= tick.wakeTime
    ensures var r := Turn(c.file, c.sendWindow, s.sender, tick);
            && r.outcome == BaseS.Waiting
            && Reaches(c, s, steps, u) && Inv(c, u)
            && s.heard <= u.heard && u == s.(sender := r.state, heard := u.heard,
                                             data := s.data + Flights(r.sent), now := tick.wakeTime)
  {
    hide Inv, Reaches, Fill, OnReply, Flights, ResentAt, ResentBytes, BaseS.ReceiveAck, SocketTimeout;
    var xs, f := FillRuns(c, s, tick.sendTime);
    var (t, sent) := Fill(c.file, c.sendWindow, s.sender, tick.sendTime);
    RunningStill(c, s, f);
    TimeoutMonotonic(t.window, f.now, tick.sendTime);
    var step := if tick.reply.NoReply? then Timeout(tick.wakeTime)
                else DeliverAck(tick.reply.bytes, tick.wakeTime);
    u := Apply(c, f, step);
    OneStep(c, f, step);
    StepKeepsInv(c, f, step);
    NotFaulted(c, u);
    ReachesTrans(c, s, xs, f, [step], u);
    FlightsOfOverdue(t.window, tick.wakeTime);
    FlightsJoin(sent, ResentBytes(t.window, tick.wakeTime));
    FlightsJoin(sent, []);
    var resent := ResentAt(t.window, tick.wakeTime);
    assert s.data + Flights(sent) + resent == s.data + (Flights(sent) + resent);
    assert sent + [] == sent;
    steps := xs + [step];
  }

  // ---- Every run of the protocol that is on time is a run of sendData ----

  /** The turns a run makes from time now on: when each fills the window, what receiveAck
      meets, and when. */
  function Ticks(now: int, steps: seq<Step>): seq<Tick>
    decreases |steps|
  {
    if steps == [] then []
    else
      match steps[0]
      case Timeout(t) => [Tick(now, BaseS.NoReply, t)] + Ticks(t, steps[1..])
      case DeliverAck(d, t) => [Tick(now, BaseS.Datagram(d), t)] + Ticks(t, steps[1..])
      case DeliverStartAck(d, t) => [Tick(now, BaseS.Datagram(d), t)] + Ticks(t, steps[1..])
      case _ => Ticks(now, steps[1..])
  }

  function HearSends(w: seq<OptPacket>, reply: BaseS.Reply, t: int): seq<seq<byte>> {
    match BaseS.ReceiveAck(reply)
    case Ok(p) => if p.header.typ == TIMEOUT then ResentBytes(w, t) else []
    case Err(_) => []
  }

  /** What the sender hands to sendto in one step. */
  ghost function StepSends(c: Config, s: System, step: Step): seq<seq<byte>>
    requires Enabled(c, s, step)
  {
    match step
    case Send(_) => [Serialize(NextPacket(c.file, s.sender.offset, s.sender.dataSeqNum))]
    case Timeout(t) => HearSends(s.sender.window, BaseS.NoReply, t)
    case DeliverAck(d, t) => HearSends(s.sender.window, BaseS.Datagram(d), t)
    case DeliverStartAck(d, t) => HearSends(s.sender.window, BaseS.Datagram(d), t)
    case _ => []
  }

  /** What it hands over in a whole run. */
  ghost function RunSends(c: Config, s: System, steps: seq<Step>, u: System): seq<seq<byte>>
    requires Reaches(c, s, steps, u)
    decreases |steps|
  {
    if steps == [] then []
    else StepSends(c, s, steps[0]) + RunSends(c, Apply(c, s, steps[0]), steps[1..], u)
  }

  /** r, with first sent ahead of it. */
  function Ahead(first: seq<seq<byte>>, r: OptRun): OptRun {
    r.(sent := first + r.sent)
  }

  lemma AheadTwice(x: seq<seq<byte>>, y: seq<seq<byte>>, r: OptRun)
    ensures Ahead(x, Ahead(y, r)) == Ahead(x + y, r)
    ensures Ahead([], r) == r
  {
    assert x + (y + r.sent) == (x + y) + r.sent;
    assert [] + r.sent == r.sent;
  }

  /** r, with the window filled once more at time now. */
  function Filled(c: Config, r: OptRun, now: int): OptRun {
    var (t, sent) := Fill(c.file, c.sendWindow, r.state, now);
    OptRun(t, r.sent + sent, r.outcome)
  }

  lemma FilledAhead(c: Config, first: seq<seq<byte>>, r: OptRun, now: int)
    ensures Filled(c, Ahead(first, r), now) == Ahead(first, Filled(c, r, now))
  {
    hide Fill;
    var sent := Fill(c.file, c.sendWindow, r.state, now).1;
    assert (first + r.sent) + sent == first + (r.sent + sent);
  }

  /** sendData where a run of the protocol has left it. */
  function Rest(c: Config, s: OptState): OptRun {
    OptRun(s, [], if Running(c.file, s) then BaseS.Waiting else BaseS.Finished)
  }

  lemma RunTurn(file: seq<byte>, w: int, s: OptState, ticks: seq<Tick>)
    requires Running(file, s) && ticks != []
    ensures var turn := Turn(file, w, s, ticks[0]);
            Run(file, w, s, ticks) ==
            if turn.outcome != BaseS.Waiting then turn else Ahead(turn.sent, Run(file, w, turn.state, ticks[1..]))
  {
    hide Turn, Run, Running;
    RunOnce(file, w, s, ticks);
  }

  lemma ChunkInWindow(file: seq<byte>, s: OptState, now: int)
    requires s.offset < |file|
    ensures Running(file, s) && Running(file, SendChunk(file, s, now))
  {
    hide NextPacket;
  }

  lemma TurnAhead(c: Config, s: OptState, tick: Tick)
    requires CanSend(c.file, c.sendWindow, s)
    ensures Turn(c.file, c.sendWindow, s, tick)
         == Ahead([Serialize(NextPacket(c.file, s.offset, s.dataSeqNum))],
                  Turn(c.file, c.sendWindow, SendChunk(c.file, s, tick.sendTime), tick))
  {
    hide Fill, SendChunk, Serialize, NextPacket, OnReply, BaseS.ReceiveAck, ResentBytes;
    FillOnce(c.file, c.sendWindow, s, tick.sendTime);
    var first := [Serialize(NextPacket(c.file, s.offset, s.dataSeqNum))];
    var (t, sent) := Fill(c.file, c.sendWindow, SendChunk(c.file, s, tick.sendTime), tick.sendTime);
    if BaseS.ReceiveAck(tick.reply).Ok? {
      var resent := if BaseS.ReceiveAck(tick.reply).value.header.typ == TIMEOUT
                    then ResentBytes(t.window, tick.wakeTime) else [];
      assert (first + sent) + resent == first + (sent + resent);
    }
  }

  lemma FilledOnce(c: Config, s: OptState, now: int)
    requires CanSend(c.file, c.sendWindow, s)
    ensures Filled(c, OptRun(s, [], BaseS.Waiting), now)
         == Ahead([Serialize(NextPacket(c.file, s.offset, s.dataSeqNum))],
                  Filled(c, OptRun(SendChunk(c.file, s, now), [], BaseS.Waiting), now))
  {
    hide Fill, SendChunk, Serialize, NextPacket;
    FillOnce(c.file, c.sendWindow, s, now);
    var sent := Fill(c.file, c.sendWindow, SendChunk(c.file, s, now), now).1;
    assert [] + sent == sent;
    var all := Fill(c.file, c.sendWindow, s, now).1;
    assert [] + all == all;
  }

  lemma AheadIsSameTurn(first: seq<seq<byte>>, r: OptRun)
    ensures Ahead(first, r).outcome == r.outcome && Ahead(first, r).state == r.state
    ensures Ahead(first, r).sent == first + r.sent
  {
  }

  // A chunk sent ahead of the loop, at the time it fills the window, makes no difference.
  lemma RunAfterChunk(c: Config, s: OptState, now: int, ticks: seq<Tick>, end: int)
    requires CanSend(c.file, c.sendWindow, s)
    requires if ticks == [] then end == now else ticks[0].sendTime == now
    ensures Filled(c, Run(c.file, c.sendWindow, s, ticks), end)
         == Ahead([Serialize(NextPacket(c.file, s.offset, s.dataSeqNum))],
                  Filled(c, Run(c.file, c.sendWindow, SendChunk(c.file, s, now), ticks), end))
  {
    hide Run, Turn, SendChunk, Serialize, NextPacket, Ahead, Filled;
    var v := SendChunk(c.file, s, now);
    var first := [Serialize(NextPacket(c.file, s.offset, s.dataSeqNum))];
    ChunkInWindow(c.file, s, now);
    if ticks == [] {
      RunOnce(c.file, c.sendWindow, s, ticks);
      RunOnce(c.file, c.sendWindow, v, ticks);
      FilledOnce(c, s, now);
    } else {
      var turn := Turn(c.file, c.sendWindow, v, ticks[0]);
      RunTurn(c.file, c.sendWindow, s, ticks);
      RunTurn(c.file, c.sendWindow, v, ticks);
      TurnAhead(c, s, ticks[0]);
      AheadIsSameTurn(first, turn);
      AheadTwice(first, turn.sent, Run(c.file, c.sendWindow, turn.state, ticks[1..]));
      FilledAhead(c, first, Run(c.file, c.sendWindow, v, ticks), end);
    }
  }

  lemma TurnHears(c: Config, s: System, reply: BaseS.Reply, t: int)
    requires Listening(c, s.sender) && !Hear(s, reply, t).faulted && !s.faulted
    ensures Turn(c.file, c.sendWindow, s.sender, Tick(s.now, reply, t))
         == OptRun(Hear(s, reply, t).sender, HearSends(s.sender.window, reply, t), BaseS.Waiting)
  {
    hide Fill, OnReply, BaseS.ReceiveAck, ResentBytes, ResentAt;
    FillOnce(c.file, c.sendWindow, s.sender, s.now);
    assert [] + HearSends(s.sender.window, reply, t) == HearSends(s.sender.window, reply, t);
  }

  // One reply at the head of a run that listens.
  lemma RunHears(c: Config, s: System, reply: BaseS.Reply, t: int, ticks: seq<Tick>)
    requires Listening(c, s.sender) && !Hear(s, reply, t).faulted && !s.faulted
    ensures Run(c.file, c.sendWindow, s.sender, [Tick(s.now, reply, t)] + ticks)
         == Ahead(HearSends(s.sender.window, reply, t),
                  Run(c.file, c.sendWindow, Hear(s, reply, t).sender, ticks))
  {
    hide Turn, Hear, HearSends, Run, CanSend, Ahead;
    TurnHears(c, s, reply, t);
    RunTurn(c.file, c.sendWindow, s.sender, [Tick(s.now, reply, t)] + ticks);
    assert ([Tick(s.now, reply, t)] + ticks)[1..] == ticks;
  }

  // The first turn of a run on time fills the window where the run begins.
  lemma {:induction false} FirstTick(c: Config, s: System, steps: seq<Step>, u: System)
    requires ReachesOnTime(c, s, steps, u)
    ensures var ticks := Ticks(s.now, steps);
            if ticks == [] then u.now == s.now else ticks[0].sendTime == s.now
    decreases |steps|
  {
    hide Hear, SendChunk, NextPacket, Rcv.OnDatagram;
    if steps != [] {
      FirstTick(c, Apply(c, s, steps[0]), steps[1..], u);
    }
  }

  lemma HearTakes(s: System, reply: BaseS.Reply, t: int)
    requires !Hear(s, reply, t).faulted
    ensures Hear(s, reply, t).now == t
  {
  }

  lemma OnTimeHead(c: Config, s: System, steps: seq<Step>, u: System)
    requires ReachesOnTime(c, s, steps, u) && steps != []
    ensures Enabled(c, s, steps[0]) && OnTime(s, steps[0])
    ensures ReachesOnTime(c, Apply(c, s, steps[0]), steps[1..], u)
  {
  }

  lemma StepIsRun(c: Config, s: System, steps: seq<Step>, u: System)
    requires c.Valid() && Inv(c, s) && ReachesOnTime(c, s, steps, u) && steps != []
    ensures var v := Apply(c, s, steps[0]);
            Filled(c, Run(c.file, c.sendWindow, s.sender, Ticks(s.now, steps)), u.now)
            == Ahead(StepSends(c, s, steps[0]),
                     Filled(c, Run(c.file, c.sendWindow, v.sender, Ticks(v.now, steps[1..])), u.now))
  {
    hide Run, Inv, Hear, HearSends, Receive, SendChunk, NextPacket, Serialize, Ahead, Filled, CanSend;
    hide IsAckDatagram, Rcv.OnDatagram, SocketTimeout, ReachesOnTime;
    var step := steps[0];
    OnTimeHead(c, s, steps, u);
    var v := Apply(c, s, step);
    StepKeepsInv(c, s, step);
    NotFaulted(c, s);
    NotFaulted(c, v);
    var ticks := Ticks(v.now, steps[1..]);
    var r := Run(c.file, c.sendWindow, v.sender, ticks);
    FirstTick(c, v, steps[1..], u);
    AheadTwice([], [], Filled(c, r, u.now));
    match step
    case Send(t) => RunAfterChunk(c, s.sender, t, ticks, u.now);
    case Timeout(t) =>
      HearTakes(s, BaseS.NoReply, t);
      RunHears(c, s, BaseS.NoReply, t, ticks);
      FilledAhead(c, StepSends(c, s, step), r, u.now);
    case DeliverAck(d, t) =>
      HearTakes(s, BaseS.Datagram(d), t);
      RunHears(c, s, BaseS.Datagram(d), t, ticks);
      FilledAhead(c, StepSends(c, s, step), r, u.now);
    case DeliverStartAck(d, t) =>
      HearTakes(s, BaseS.Datagram(d), t);
      RunHears(c, s, BaseS.Datagram(d), t, ticks);
      FilledAhead(c, StepSends(c, s, step), r, u.now);
    case DeliverData(f, ack) => ReceiveKeepsSender(c, s, f.bytes, ack);
    case DeliverStart(d) => ReceiveKeepsSender(c, s, d, []);
    case LoseData(f) =>
    case LoseAck(d) =>
    case Damage(f, payload) =>
  }

  lemma EmptyRun(c: Config, s: OptState)
    ensures Run(c.file, c.sendWindow, s, []) == Rest(c, s)
  {
    hide Run;
    RunOnce(c.file, c.sendWindow, s, []);
  }

  /** Over any run of the protocol that is on time, with any steps of the receiver and the
      network between the sender's own: sendData on the replies met in it, and with its
      window filled at the end, sends what the run sent, and then stands where the run left
      the sender. */
  lemma {:induction false} RunIsSendData(c: Config, s: System, steps: seq<Step>, u: System)
    requires c.Valid() && Inv(c, s) && ReachesOnTime(c, s, steps, u)
    ensures Reaches(c, s, steps, u)
    ensures Filled(c, Run(c.file, c.sendWindow, s.sender, Ticks(s.now, steps)), u.now)
         == Ahead(RunSends(c, s, steps, u), Filled(c, Rest(c, u.sender), u.now))
    decreases |steps|
  {
    hide Inv, Run, Apply, Enabled, OnTime, Ahead, Rest, StepSends, Filled;
    OnTimeReaches(c, s, steps, u);
    if steps == [] {
      EmptyRun(c, s.sender);
      AheadTwice([], [], Filled(c, Rest(c, s.sender), s.now));
    } else {
      var v := Apply(c, s, steps[0]);
      StepKeepsInv(c, s, steps[0]);
      RunIsSendData(c, v, steps[1..], u);
      StepIsRun(c, s, steps, u);
      AheadTwice(StepSends(c, s, steps[0]), RunSends(c, v, steps[1..], u), Filled(c, Rest(c, u.sender), u.now));
    }
  }
}
