/** The base protocol and the loop of sendData are the same sender: a turn of the loop, as
    the class Sender performs it, is a run of Send steps and one Timeout or DeliverAck; and
    over any run of the protocol, whatever happens between its steps, the sender does what
    sendData does with the replies it meets. */
module BaseTurn {
  import opened Wire
  import opened Chunks
  import opened BaseSender
  import opened Network
  import opened BaseProtocol
  import opened BaseLiveness
  import opened BaseRound

  lemma {:induction false} FlightsOfWindow(ps: seq<Packet>)
    ensures Flights(Datagrams(ps)) == SentAll(ps)
    decreases |ps|
  {
    hide Serialize;
    if ps != [] {
      FlightsOfWindow(ps[1..]);
      FlightsJoin([Serialize(ps[0])], Datagrams(ps[1..]));
      assert forall p :: p in ps <==> p == ps[0] || p in ps[1..];
      assert Flights([Serialize(ps[0])]) == {Sent(ps[0])};
    }
  }

  lemma {:induction false} FillIsSends(c: Config, s: System)
    ensures var (t, sent) := Fill(c.file, c.sendWindow, s.sender);
            FillAll(c, s) == s.(sender := t, data := s.data + Flights(sent))
    decreases |c.file| - s.sender.offset
  {
    hide SendChunk, NextPacket, Serialize, Fill;
    FillOnce(c.file, c.sendWindow, s.sender);
    if CanSend(c.file, c.sendWindow, s.sender) {
      ChunkAdvances(c.file, s.sender);
      var p := NextPacket(c.file, s.sender.offset, s.sender.dataSeqNum);
      var u := s.(sender := SendChunk(c.file, s.sender), data := s.data + {Sent(p)});
      FillIsSends(c, u);
      var (t, sent) := Fill(c.file, c.sendWindow, u.sender);
      FlightsJoin([Serialize(p)], sent);
      assert Flights([Serialize(p)]) == {Sent(p)};
      assert s.data + Flights([Serialize(p)] + sent) == u.data + Flights(sent);
    }
  }

  lemma RunningStill(c: Config, s: System, f: System)
    requires Inv(c, s) && Inv(c, f) && Running(c.file, s.sender) && Base(f.sender) == Base(s.sender)
    ensures Running(c.file, f.sender) && !f.faulted
  {
    hide SenderOk, FlightOk, AckOk;
    SendBounds(c, s.sender);
    SendBounds(c, f.sender);
  }

  /** A turn that meets a timeout or an ACK in the network never faults, and is such a run. */
  lemma TurnIsRun(c: Config, s: System, reply: Reply) returns (steps: seq<Step>)
    requires c.Valid() && Inv(c, s) && Running(c.file, s.sender)
    requires reply.Datagram? ==> reply.bytes in s.acks
    ensures var r := Turn(c.file, c.sendWindow, s.sender, reply);
            var u := s.(sender := r.state, data := s.data + Flights(r.sent));
            r.outcome == Waiting && Reaches(c, s, steps, u) && Inv(c, u)
  {
    hide Inv, Reaches, FillAll, Fill, OnReply, Resent, Flights, SentAll, ReceiveAck, Datagrams;
    var xs := FillAllRuns(c, s);
    var f := FillAll(c, s);
    FillIsSends(c, s);
    var (t, sent) := Fill(c.file, c.sendWindow, s.sender);
    RunningStill(c, s, f);
    var step := if reply.NoReply? then Timeout else DeliverAck(reply.bytes);
    var u := Apply(c, f, step);
    OneStep(c, f, step);
    StepKeepsInv(c, f, step);
    NotFaulted(c, u);
    ReachesTrans(c, s, xs, f, [step], u);
    var p := ReceiveAck(reply).value;
    FlightsOfWindow(Resent(t, p));
    FlightsJoin(sent, Datagrams(Resent(t, p)));
    assert s.data + Flights(sent) + SentAll(Resent(t, p)) == s.data + (Flights(sent) + SentAll(Resent(t, p)));
    steps := xs + [step];
  }

  // ---- Every run of the protocol is a run of sendData ----

  /** What receiveAck meets in one step, if it is called. */
  function ReplyOf(step: Step): seq<Reply> {
    match step
    case Timeout => [NoReply]
    case DeliverAck(d) => [Datagram(d)]
    case _ => []
  }

  /** And over a run. */
  function Replies(steps: seq<Step>): seq<Reply>
    decreases |steps|
  {
    if steps == [] then [] else ReplyOf(steps[0]) + Replies(steps[1..])
  }

  function HearSends(s: SenderState, reply: Reply): seq<seq<byte>> {
    match ReceiveAck(reply)
    case Ok(p) => Datagrams(Resent(s, p))
    case Err(_) => []
  }

  /** What the sender hands to sendto in one step. */
  ghost function StepSends(c: Config, s: System, step: Step): seq<seq<byte>>
    requires Enabled(c, s, step)
  {
    match step
    case Send => [Serialize(NextPacket(c.file, s.sender.offset, s.sender.dataSeqNum))]
    case Timeout => HearSends(s.sender, NoReply)
    case DeliverAck(d) => HearSends(s.sender, Datagram(d))
    case _ => []
  }

  lemma AckSendsNothing(c: Config, s: System, d: seq<byte>)
    requires Inv(c, s) && d in s.acks
    ensures HearSends(s.sender, Datagram(d)) == []
  {
    hide SenderOk, ReceiverOk, FlightOk, IsAckDatagram, ReceiveAckBytes, CrcU32;
    var a: u32 :| a <= s.receiver.nextSeq && IsAckDatagram(d, a);
    AckIsNoTimeout(d, a);
  }

  /** What the sender hands over, exactly: in a Send the next packet, in a timeout every packet of
      the window, once and front to back, and on an ACK nothing. */
  lemma StepSendsInOrder(c: Config, s: System, step: Step)
    requires c.Valid() && Inv(c, s) && Enabled(c, s, step)
    ensures step.Send? ==> StepSends(c, s, step) == [DataBytes(c.file, s.sender.dataSeqNum)]
    ensures step.Timeout? ==> InOrder(c.file, StepSends(c, s, step), Base(s.sender), s.sender.dataSeqNum)
    ensures !step.Send? && !step.Timeout? ==> StepSends(c, s, step) == []
  {
    hide InOrder, ReceiveAck, NextPacket, Serialize, Resent, FlightOk, AckOk, ReceiverOk, SenderOk;
    match step
    case Send => FirstOfFill(c.file, c.sendWindow, s.sender);
    case Timeout =>
      NoReplyIsTimeout(s.sender);
      ResentInOrder(c.file, c.sendWindow, s.sender, ReceiveAck(NoReply).value);
    case DeliverAck(d) => AckSendsNothing(c, s, d);
    case _ =>
  }

  /** What it hands over in a whole run. */
  ghost function RunSends(c: Config, s: System, steps: seq<Step>, t: System): seq<seq<byte>>
    requires Reaches(c, s, steps, t)
    decreases |steps|
  {
    if steps == [] then []
    else StepSends(c, s, steps[0]) + RunSends(c, Apply(c, s, steps[0]), steps[1..], t)
  }

  lemma HearPutsFlights(s: System, reply: Reply)
    requires !Hear(s, reply).faulted
    ensures Hear(s, reply).data == s.data + Flights(HearSends(s.sender, reply))
  {
    hide ReceiveAck, OnReply, Resent, SentAll;
    if ReceiveAck(reply).Ok? {
      FlightsOfWindow(Resent(s.sender, ReceiveAck(reply).value));
    }
  }

  /** What a step hands over is what it puts on the network. */
  lemma StepPutsFlights(c: Config, s: System, step: Step)
    requires Enabled(c, s, step) && !s.faulted && !Apply(c, s, step).faulted
    requires step.Send? || step.Timeout? || step.DeliverAck?
    ensures Apply(c, s, step).data == s.data + Flights(StepSends(c, s, step))
  {
    hide ReceiveAck, OnReply, Resent, NextPacket, SendChunk, SentAll;
    match step
    case Send =>
    case Timeout => HearPutsFlights(s, NoReply);
    case DeliverAck(d) => HearPutsFlights(s, Datagram(d));
  }

  /** r, with first sent ahead of it. */
  function Ahead(first: seq<seq<byte>>, r: SendRun): SendRun {
    r.(sent := first + r.sent)
  }

  lemma AheadTwice(x: seq<seq<byte>>, y: seq<seq<byte>>, r: SendRun)
    ensures Ahead(x, Ahead(y, r)) == Ahead(x + y, r)
    ensures Ahead([], r) == r
  {
    assert x + (y + r.sent) == (x + y) + r.sent;
    assert [] + r.sent == r.sent;
  }

  lemma RunTurn(file: seq<byte>, w: int, s: SenderState, replies: seq<Reply>)
    requires Running(file, s) && replies != []
    ensures var turn := Turn(file, w, s, replies[0]);
            Run(file, w, s, replies) ==
            if turn.outcome != Waiting then turn else Ahead(turn.sent, Run(file, w, turn.state, replies[1..]))
  {
    hide Turn, Run, Running;
    RunOnce(file, w, s, replies);
  }

  lemma TurnAhead(file: seq<byte>, w: int, s: SenderState, reply: Reply)
    requires CanSend(file, w, s)
    ensures Turn(file, w, s, reply)
         == Ahead([Serialize(NextPacket(file, s.offset, s.dataSeqNum))], Turn(file, w, SendChunk(file, s), reply))
  {
    hide Fill, SendChunk, Serialize, NextPacket, OnReply, ReceiveAck, Resent;
    FillOnce(file, w, s);
    var first := [Serialize(NextPacket(file, s.offset, s.dataSeqNum))];
    var (t, sent) := Fill(file, w, SendChunk(file, s));
    if ReceiveAck(reply).Ok? {
      var p := ReceiveAck(reply).value;
      assert (first + sent) + Datagrams(Resent(t, p)) == first + (sent + Datagrams(Resent(t, p)));
    }
  }

  lemma ChunkInWindow(file: seq<byte>, s: SenderState)
    requires s.offset < |file|
    ensures Running(file, s) && Running(file, SendChunk(file, s))
  {
    hide NextPacket;
  }

  lemma FillAhead(file: seq<byte>, w: int, s: SenderState)
    requires CanSend(file, w, s)
    ensures var (t, sent) := Fill(file, w, s);
            var (u, rest) := Fill(file, w, SendChunk(file, s));
            SendRun(t, sent, Waiting)
            == Ahead([Serialize(NextPacket(file, s.offset, s.dataSeqNum))], SendRun(u, rest, Waiting))
  {
    hide Fill, SendChunk, Serialize, NextPacket;
    FillOnce(file, w, s);
  }

  lemma AheadIsSameTurn(first: seq<seq<byte>>, r: SendRun)
    ensures Ahead(first, r).outcome == r.outcome && Ahead(first, r).state == r.state
    ensures Ahead(first, r).sent == first + r.sent
  {
  }

  // A chunk sent ahead of the loop makes no difference to where it gets.
  lemma RunAfterChunk(file: seq<byte>, w: int, s: SenderState, replies: seq<Reply>)
    requires CanSend(file, w, s)
    ensures Run(file, w, s, replies)
         == Ahead([Serialize(NextPacket(file, s.offset, s.dataSeqNum))], Run(file, w, SendChunk(file, s), replies))
  {
    hide Run, Turn, Fill, SendChunk, Serialize, NextPacket, Ahead;
    var v := SendChunk(file, s);
    var first := [Serialize(NextPacket(file, s.offset, s.dataSeqNum))];
    ChunkInWindow(file, s);
    if replies == [] {
      RunOnce(file, w, s, replies);
      RunOnce(file, w, v, replies);
      FillAhead(file, w, s);
    } else {
      var turn := Turn(file, w, v, replies[0]);
      RunTurn(file, w, s, replies);
      RunTurn(file, w, v, replies);
      TurnAhead(file, w, s, replies[0]);
      AheadIsSameTurn(first, turn);
      AheadTwice(first, turn.sent, Run(file, w, turn.state, replies[1..]));
    }
  }

  // A turn of a sender that listens is what hearing the reply does.
  lemma TurnHears(c: Config, s: System, reply: Reply)
    requires Listening(c, s.sender) && !Hear(s, reply).faulted && !s.faulted
    ensures Turn(c.file, c.sendWindow, s.sender, reply)
         == SendRun(Hear(s, reply).sender, HearSends(s.sender, reply), Waiting)
  {
    hide Fill, OnReply, ReceiveAck, Resent;
    FillOnce(c.file, c.sendWindow, s.sender);
    assert [] + HearSends(s.sender, reply) == HearSends(s.sender, reply);
  }

  // One reply at the head of a run that listens.
  lemma RunHears(c: Config, s: System, reply: Reply, replies: seq<Reply>)
    requires Listening(c, s.sender) && !Hear(s, reply).faulted && !s.faulted
    ensures Run(c.file, c.sendWindow, s.sender, [reply] + replies)
         == Ahead(HearSends(s.sender, reply), Run(c.file, c.sendWindow, Hear(s, reply).sender, replies))
  {
    hide Turn, Hear, HearSends, Run, CanSend, Ahead;
    TurnHears(c, s, reply);
    RunTurn(c.file, c.sendWindow, s.sender, [reply] + replies);
    assert ([reply] + replies)[1..] == replies;
  }

  lemma StepIsRun(c: Config, s: System, step: Step, replies: seq<Reply>)
    requires Enabled(c, s, step) && !s.faulted && !Apply(c, s, step).faulted
    ensures Run(c.file, c.sendWindow, s.sender, ReplyOf(step) + replies)
         == Ahead(StepSends(c, s, step), Run(c.file, c.sendWindow, Apply(c, s, step).sender, replies))
  {
    hide Run, Hear, HearSends, Receive, SendChunk, NextPacket, Serialize, Ahead;
    AheadTwice([], [], Run(c.file, c.sendWindow, s.sender, replies));
    var none: seq<Reply> := [];
    assert none + replies == replies;
    match step
    case Send => RunAfterChunk(c.file, c.sendWindow, s.sender, replies);
    case Timeout => RunHears(c, s, NoReply, replies);
    case DeliverAck(d) => RunHears(c, s, Datagram(d), replies);
    case DeliverData(f, ack) => ReceiveKeepsSender(c, s, f.bytes, ack);
    case DeliverStart(d) => ReceiveKeepsSender(c, s, d, []);
    case LoseData(f) =>
    case LoseAck(d) =>
    case Damage(f, payload) =>
  }

  lemma DoneCannotSend(c: Config, s: SenderState)
    ensures !Running(c.file, s) ==> !CanSend(c.file, c.sendWindow, s)
  {
  }

  /** sendData where a run of the protocol has left it: its window filled, it waits or is done. */
  function Rest(c: Config, s: SenderState): SendRun {
    var (u, sent) := Fill(c.file, c.sendWindow, s);
    SendRun(u, sent, if Running(c.file, s) then Waiting else Finished)
  }

  lemma EmptyRun(c: Config, s: SenderState)
    ensures Run(c.file, c.sendWindow, s, []) == Rest(c, s)
  {
    hide Fill, Run;
    RunOnce(c.file, c.sendWindow, s, []);
    DoneCannotSend(c, s);
    FillOnce(c.file, c.sendWindow, s);
  }

  /** Over any run of the protocol, with any steps of the receiver and the network between
      the sender's own: sendData on the replies met in it sends what the run sent, and then
      stands where the run left the sender. */
  lemma {:induction false} RunIsSendData(c: Config, s: System, steps: seq<Step>, t: System)
    requires c.Valid() && Inv(c, s) && Reaches(c, s, steps, t)
    ensures Run(c.file, c.sendWindow, s.sender, Replies(steps)) == Ahead(RunSends(c, s, steps, t), Rest(c, t.sender))
    decreases |steps|
  {
    hide Inv, Run, Apply, Enabled, Ahead, Rest, StepSends, ReplyOf;
    if steps == [] {
      EmptyRun(c, s.sender);
      AheadTwice([], [], Rest(c, s.sender));
    } else {
      var v := Apply(c, s, steps[0]);
      StepKeepsInv(c, s, steps[0]);
      NotFaulted(c, s);
      NotFaulted(c, v);
      RunIsSendData(c, v, steps[1..], t);
      StepIsRun(c, s, steps[0], Replies(steps[1..]));
      AheadTwice(StepSends(c, s, steps[0]), RunSends(c, v, steps[1..], t), Rest(c, t.sender));
    }
  }
}
