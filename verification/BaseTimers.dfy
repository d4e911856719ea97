/** The base protocol with a clock in milliseconds. Each call of recvfrom has a timeout of its
    own, so the sender retransmits when no reply at all has come for 500 ms, and not, as
    README.md asks, when the window has not moved for 500 ms: an ACK that has nothing new to
    say puts the retransmission off. */
module BaseTimers {
  import opened Wire
  import opened Chunks
  import opened BaseSender
  import opened BaseReceiver
  import opened Network
  import opened BaseProtocol
  import opened BaseLiveness
  import opened BaseRound
  import opened BaseTurn

  /** A step and when it happens. */
  datatype Timed = Timed(step: Step, at: int)

  /** The sender's steps wait for the time they need, since the last of them at time since:
      recvfrom gives up after 500 ms, and returns sooner if something arrives. */
  predicate TimeOk(since: int, x: Timed) {
    match x.step
    case Send => since <= x.at
    case Timeout => x.at == since + 500
    case DeliverAck(_) => since <= x.at < since + 500
    case _ => true
  }

  predicate SendersStep(step: Step) {
    step.Send? || step.Timeout? || step.DeliverAck?
  }

  function Since(since: int, x: Timed): int {
    if SendersStep(x.step) then x.at else since
  }

  ghost predicate TimedReaches(c: Config, s: System, since: int, xs: seq<Timed>, t: System, end: int)
    decreases |xs|
  {
    if xs == [] then s == t && since == end
    else
      && Enabled(c, s, xs[0].step) && TimeOk(since, xs[0])
      && TimedReaches(c, Apply(c, s, xs[0].step), Since(since, xs[0]), xs[1..], t, end)
  }

  /** An ACK in the network that acknowledges nothing new. */
  ghost predicate StaleAck(s: System, d: seq<byte>) {
    d in s.acks && exists a: u32 :: a <= Base(s.sender) && IsAckDatagram(d, a)
  }

  lemma StaleAckIsDropped(c: Config, s: SenderState, a: u32)
    requires SenderOk(c.file, c.sendWindow, s) && s.window != [] && a <= Base(s)
    ensures OnAck(s, a) == Ok(s)
  {
    assert s.window[0].header.seqNum == Base(s);
  }

  /** Hearing a stale ACK changes nothing, whatever the clock says. */
  lemma StaleAckChangesNothing(c: Config, s: System, d: seq<byte>)
    requires c.Valid() && Inv(c, s) && Listening(c, s.sender) && StaleAck(s, d)
    ensures Enabled(c, s, DeliverAck(d)) && Apply(c, s, DeliverAck(d)) == s
  {
    hide SenderOk, FlightOk, AckOk, ReceiverOk, IsAckDatagram, Hear, OnAck;
    var a: u32 :| a <= Base(s.sender) && IsAckDatagram(d, a);
    ListeningHasWindow(c, s.sender);
    SenderBounds(c, s.sender);
    AckArrives(c, s, d, a);
    StaleAckIsDropped(c, s.sender, a);
  }

  /** k repeats of one ACK, a millisecond apart. */
  predicate Repeats(d: seq<byte>, since: int, xs: seq<Timed>) {
    forall i | 0 <= i < |xs| :: xs[i] == Timed(DeliverAck(d), since + i + 1)
  }

  /** Time passes without end, the ACK coming again in each millisecond, while nothing is sent
      and the window stays where it is. */
  lemma {:induction false} StaleAcksPostpone(c: Config, s: System, d: seq<byte>, since: int, k: nat)
    returns (xs: seq<Timed>)
    requires c.Valid() && Inv(c, s) && Listening(c, s.sender) && StaleAck(s, d)
    ensures |xs| == k && Repeats(d, since, xs)
    ensures TimedReaches(c, s, since, xs, s, since + k)
    decreases k
  {
    hide Inv, Listening, StaleAck, Enabled, Apply;
    if k == 0 {
      xs := [];
    } else {
      StaleAckChangesNothing(c, s, d);
      var rest := StaleAcksPostpone(c, s, d, since + 1, k - 1);
      var x := Timed(DeliverAck(d), since + 1);
      xs := [x] + rest;
      assert xs[1..] == rest;
    }
  }

  /** The sender listens, in a reachable state, with such an ACK in the network. */
  ghost predicate CanStarve(c: Config, s: System) {
    Reachable(c, s) && Listening(c, s.sender) && exists d :: StaleAck(s, d)
  }

  ghost predicate CanWait(c: Config, s: System, since: int, k: nat) {
    exists xs, d :: |xs| == k && Repeats(d, since, xs) && TimedReaches(c, s, since, xs, s, since + k)
  }

  /** So from each such state retransmission can be put off for any length of time. */
  lemma RetransmissionCanBePutOffForever(c: Config, s: System, since: int)
    requires c.Valid() && CanStarve(c, s)
    ensures s.sender.window != []
    ensures forall k: nat :: CanWait(c, s, since, k)
  {
    hide Reachable, Inv, StaleAck, Repeats, TimedReaches;
    ReachableInv(c, s);
    ListeningHasWindow(c, s.sender);
    var d :| StaleAck(s, d);
    forall k: nat
      ensures CanWait(c, s, since, k)
    {
      var xs := StaleAcksPostpone(c, s, d, since, k);
    }
  }

  // ---- Which transfers come to such a state ----

  lemma FillFresh(c: Config, start: u32) returns (steps: seq<Step>)
    requires c.Valid()
    ensures var f := FillAll(c, Fresh(start));
            && Reaches(c, Fresh(start), steps, f) && Inv(c, f) && f.receiver == Fresh(start).receiver && f.acks == {}
            && !CanSend(c.file, c.sendWindow, f.sender) && Base(f.sender) == 0
            && f.sender.dataSeqNum == Min(NumChunks(c.file), c.sendWindow)
            && (forall i: u32 | i < f.sender.dataSeqNum :: Sent(DataPacket(c.file, i)) in f.data)
  {
    hide Inv, FillAll, Fill, Reaches, DataPacket, Serialize;
    assert Init(Fresh(start));
    InitInv(c, Fresh(start));
    steps := FillAllRuns(c, Fresh(start));
    var f := FillAll(c, Fresh(start));
    FillIsSends(c, Fresh(start));
    SenderOfInv(c, Fresh(start));
    SenderOfInv(c, f);
    FillKeeps(c.file, c.sendWindow, Fresh(start).sender);
    SendBounds(c, f.sender);
    SenderBounds(c, f.sender);
    var sent := Fill(c.file, c.sendWindow, Fresh(start).sender).1;
    forall i: u32 | i < f.sender.dataSeqNum
      ensures Sent(DataPacket(c.file, i)) in f.data
    {
      assert DataBytes(c.file, i) in sent;
    }
  }

  // Packet 0 delivered and acknowledged, the ACK heard and still under way.
  lemma FirstAckHeard(c: Config, start: u32) returns (s: System)
    requires c.Valid() && c.recvWindow >= 1 && NumChunks(c.file) >= 2
    ensures CanStarve(c, s)
  {
    hide Inv, Reaches, FillAll, CanSend, IsAckDatagram, DataPacket, Sent, Receive, Hear;
    var xs := FillFresh(c, start);
    var f := FillAll(c, Fresh(start));
    var d, g := DeliverAwaited(c, f, Sent(DataPacket(c.file, 0)));
    var step := DeliverData(Sent(DataPacket(c.file, 0)), d);
    StepKeepsInv(c, f, step);
    OneStep(c, f, step);
    HearOne(c, g, d, 1);
    var h := Hear(g, Datagram(d));
    var ys := FillAllRuns(c, h);
    s := FillAll(c, h);
    ReachesTrans(c, Fresh(start), xs, f, [step], g);
    ReachesTrans(c, Fresh(start), xs + [step], g, [DeliverAck(d)], h);
    ReachesTrans(c, Fresh(start), xs + [step] + [DeliverAck(d)], h, ys, s);
    assert Init(Fresh(start));
    SenderOfInv(c, s);
    SendBounds(c, s.sender);
    assert d in s.acks;
    var one: u32 := 1;
    assert one <= Base(s.sender) && IsAckDatagram(d, one);
    assert StaleAck(s, d);
    assert Listening(c, s.sender);
    assert Reachable(c, s);
  }

  // With at most one chunk every ACK in the network is of number 1 or more.
  ghost predicate AcksAboveZero(s: System) {
    forall d | d in s.acks :: AckAbove(d, 0)
  }

  lemma NextSeqNat(c: Config, s: System)
    requires Inv(c, s)
    ensures 0 <= s.receiver.nextSeq
  {
    hide SenderOk, FlightOk, AckOk;
  }

  lemma AnswerIsAbove(c: Config, s: System, f: Flight, ack: seq<byte>)
    requires c.Valid() && NumChunks(c.file) <= 1 && Inv(c, s) && AcksAboveZero(s)
    requires Enabled(c, s, DeliverData(f, ack))
    ensures AcksAboveZero(Apply(c, s, DeliverData(f, ack)))
  {
    hide SenderOk, Carries, OnDatagram, ReceiverOk, AckOk, IsAckDatagram;
    var i: u32 :| i < s.sender.dataSeqNum && Carries(c.file, i, f);
    SenderBounds(c, s.sender);
    NextSeqNat(c, s);
    DataArrives(c, s.before, s.receiver, i, f);
    var r := OnDatagram(c.recvWindow, s.receiver, f.bytes).value;
    if r.ack.Some? {
      assert IsAckDatagram(ack, 1);
    }
  }

  lemma StepKeepsAbove(c: Config, s: System, step: Step)
    requires c.Valid() && NumChunks(c.file) <= 1 && Inv(c, s) && AcksAboveZero(s) && Enabled(c, s, step)
    ensures AcksAboveZero(Apply(c, s, step))
  {
    hide SenderOk, ReceiverOk, FlightOk, AckOk, Hear, Receive, AckAbove;
    match step
    case Send =>
    case Timeout => HearChangesSender(s, NoReply);
    case DeliverAck(d) => HearChangesSender(s, Datagram(d));
    case DeliverData(f, ack) => AnswerIsAbove(c, s, f, ack);
    case DeliverStart(d) => StartIgnored(c, s, d);
    case LoseData(f) =>
    case LoseAck(d) =>
    case Damage(f, payload) =>
  }

  lemma {:induction false} RunKeepsAbove(c: Config, s: System, steps: seq<Step>, t: System)
    requires c.Valid() && NumChunks(c.file) <= 1 && Inv(c, s) && AcksAboveZero(s) && Reaches(c, s, steps, t)
    ensures AcksAboveZero(t) && Inv(c, t)
    decreases |steps|
  {
    hide Inv, Enabled, Apply, AcksAboveZero;
    if steps != [] {
      StepKeepsInv(c, s, steps[0]);
      StepKeepsAbove(c, s, steps[0]);
      RunKeepsAbove(c, Apply(c, s, steps[0]), steps[1..], t);
    }
  }

  lemma OneChunkCannotStarve(c: Config, s: System)
    requires c.Valid() && NumChunks(c.file) <= 1
    ensures !CanStarve(c, s)
  {
    hide Reaches, Inv, IsAckDatagram;
    if CanStarve(c, s) {
      var s0: System, steps: seq<Step> :| Init(s0) && Reaches(c, s0, steps, s);
      InitInv(c, s0);
      RunKeepsAbove(c, s0, steps, s);
      var d :| StaleAck(s, d);
      var a: u32 :| a <= Base(s.sender) && IsAckDatagram(d, a);
      var b: u32 :| b > 0 && IsAckDatagram(d, b);
      AckNumberUnique(d, a, b);
      SenderOfInv(c, s);
      SendBounds(c, s.sender);
      assert false;
    }
  }

  /** A transfer can come to such a state iff its file has more than one chunk. */
  lemma CanStarveIff(c: Config)
    requires c.Valid() && c.recvWindow >= 1
    ensures (exists s :: CanStarve(c, s)) <==> NumChunks(c.file) >= 2
  {
    hide CanStarve;
    if NumChunks(c.file) >= 2 {
      var s := FirstAckHeard(c, 1);
    } else {
      forall s
        ensures !CanStarve(c, s)
      {
        OneChunkCannotStarve(c, s);
      }
    }
  }

  // ---- When the window is sent again ----

  function Steps(xs: seq<Timed>): (steps: seq<Step>)
    ensures |steps| == |xs|
    ensures forall j | 0 <= j < |xs| :: steps[j] == xs[j].step
    decreases |xs|
  {
    if xs == [] then [] else [xs[0].step] + Steps(xs[1..])
  }

  lemma {:induction false} TimedIsRun(c: Config, s: System, since: int, xs: seq<Timed>, t: System, end: int)
    requires TimedReaches(c, s, since, xs, t, end)
    ensures Reaches(c, s, Steps(xs), t)
    decreases |xs|
  {
    hide Enabled, Apply, TimeOk, Since;
    if xs != [] {
      assert Steps(xs)[1..] == Steps(xs[1..]);
      TimedIsRun(c, Apply(c, s, xs[0].step), Since(since, xs[0]), xs[1..], t, end);
    }
  }

  /** When the sender last did something, before the call of recvfrom that comes after xs. */
  function SinceAfter(since: int, xs: seq<Timed>): int
    decreases |xs|
  {
    if xs == [] then since else SinceAfter(Since(since, xs[0]), xs[1..])
  }

  /** The recvfrom that comes back at step j was called 500 ms before: for that long the sender
      has heard nothing. */
  predicate SilentAt(since: int, xs: seq<Timed>, j: nat)
    requires j < |xs|
  {
    (xs[j].step.Timeout? || xs[j].step.DeliverAck?) && xs[j].at >= SinceAfter(since, xs[..j]) + 500
  }

  lemma SilentLater(since: int, xs: seq<Timed>, j: nat)
    requires 0 < j < |xs|
    ensures SilentAt(since, xs, j) <==> SilentAt(Since(since, xs[0]), xs[1..], j - 1)
  {
    assert xs[..j][1..] == xs[1..][..j - 1];
  }

  lemma {:induction false} DatagramOf(ps: seq<Packet>, k: nat)
    requires k < |ps|
    ensures Serialize(ps[k]) in Datagrams(ps)
    decreases k
  {
    hide Serialize;
    if k > 0 {
      DatagramOf(ps[1..], k - 1);
    }
  }

  lemma TimeoutSends(c: Config, s: SenderState, i: u32)
    requires SenderOk(c.file, c.sendWindow, s) && Base(s) <= i < s.dataSeqNum
    ensures DataBytes(c.file, i) in HearSends(s, NoReply)
  {
    hide ReceiveAck, DataPacket, Serialize;
    TimeoutReply();
    PacketAt(c.file, s.dataSeqNum, i);
    DatagramOf(s.window, i - Base(s));
  }

  lemma SendSendsNext(c: Config, s: System, i: u32)
    requires SenderOk(c.file, c.sendWindow, s.sender) && CanSend(c.file, c.sendWindow, s.sender)
    requires i < s.sender.dataSeqNum
    ensures DataBytes(c.file, i) !in [Serialize(NextPacket(c.file, s.sender.offset, s.sender.dataSeqNum))]
  {
    hide NextPacket, DataPacket, Serialize;
    FirstOfFill(c.file, c.sendWindow, s.sender);
    if DataBytes(c.file, i) == DataBytes(c.file, s.sender.dataSeqNum) {
      DataBytesDiffer(c.file, i, s.sender.dataSeqNum);
    }
  }

  // A timeout sends every packet of the window again; no other step sends a packet twice.
  lemma StepSendsAgainIff(c: Config, s: System, step: Step, i: u32)
    requires c.Valid() && Inv(c, s) && Enabled(c, s, step) && Base(s.sender) <= i < s.sender.dataSeqNum
    ensures DataBytes(c.file, i) in StepSends(c, s, step) <==> step.Timeout?
  {
    hide Inv, HearSends, DataBytes;
    SenderOfInv(c, s);
    match step
    case Send => SendSendsNext(c, s, i);
    case Timeout => TimeoutSends(c, s.sender, i);
    case DeliverAck(d) => AckSendsNothing(c, s, d);
    case DeliverData(f, ack) =>
    case DeliverStart(d) =>
    case LoseData(f) =>
    case LoseAck(d) =>
    case Damage(f, payload) =>
  }

  lemma {:induction false} RunRaises(c: Config, s: System, steps: seq<Step>, t: System)
    requires c.Valid() && Inv(c, s) && Reaches(c, s, steps, t)
    ensures Base(s.sender) <= Base(t.sender)
    decreases |steps|
  {
    hide Inv, Enabled, Apply, Base;
    if steps != [] {
      StepKeepsInv(c, s, steps[0]);
      NumbersGrow(c, s, steps[0]);
      RunRaises(c, Apply(c, s, steps[0]), steps[1..], t);
    }
  }

  lemma SilentInRest(since: int, xs: seq<Timed>)
    requires xs != []
    ensures (exists j :: 0 <= j < |xs| && SilentAt(since, xs, j)) <==>
            SilentAt(since, xs, 0) || exists j :: 0 <= j < |xs[1..]| && SilentAt(Since(since, xs[0]), xs[1..], j)
  {
    hide SilentAt, Since;
    if j :| 0 <= j < |xs| && SilentAt(since, xs, j) {
      if j > 0 {
        SilentLater(since, xs, j);
      }
    }
    if j :| 0 <= j < |xs[1..]| && SilentAt(Since(since, xs[0]), xs[1..], j) {
      SilentLater(since, xs, j + 1);
    }
  }

  lemma FirstSilent(since: int, xs: seq<Timed>)
    requires xs != [] && TimeOk(since, xs[0])
    ensures SilentAt(since, xs, 0) <==> xs[0].step.Timeout?
  {
  }

  /** Over any run with a clock, a packet that stays in the window goes out again iff some
      recvfrom of the run has waited 500 ms in vain: how long ago the packet was sent, or the
      window last moved, has no say in it. */
  lemma {:induction false} SentAgainIff(c: Config, s: System, since: int, xs: seq<Timed>, t: System, end: int, i: u32)
    requires c.Valid() && Inv(c, s) && TimedReaches(c, s, since, xs, t, end)
    requires Base(t.sender) <= i < s.sender.dataSeqNum
    ensures Reaches(c, s, Steps(xs), t)
    ensures DataBytes(c.file, i) in RunSends(c, s, Steps(xs), t)
            <==> exists j :: 0 <= j < |xs| && SilentAt(since, xs, j)
    decreases |xs|
  {
    hide Inv, Enabled, Apply, StepSends, DataBytes, Base, SilentAt, Since, TimeOk;
    TimedIsRun(c, s, since, xs, t, end);
    if xs != [] {
      var v := Apply(c, s, xs[0].step);
      StepKeepsInv(c, s, xs[0].step);
      NumbersGrow(c, s, xs[0].step);
      assert Steps(xs)[1..] == Steps(xs[1..]);
      TimedIsRun(c, v, Since(since, xs[0]), xs[1..], t, end);
      RunRaises(c, s, Steps(xs), t);
      StepSendsAgainIff(c, s, xs[0].step, i);
      SentAgainIff(c, v, Since(since, xs[0]), xs[1..], t, end, i);
      FirstSilent(since, xs);
      SilentInRest(since, xs);
    }
  }

  // ---- When that is as README.md asks ----

  /** The sender listens in a reachable state, and x is the next thing it does. */
  ghost predicate NextMove(c: Config, s: System, since: int, x: Timed) {
    && Reachable(c, s) && Listening(c, s.sender)
    && Enabled(c, s, x.step) && TimeOk(since, x) && SendersStep(x.step)
  }

  /** The window moves, or is sent again after 500 ms. */
  ghost predicate MovesOrTimesOut(c: Config, s: System, since: int, x: Timed)
    requires Enabled(c, s, x.step)
  {
    x == Timed(Timeout, since + 500) || Base(Apply(c, s, x.step).sender) > Base(s.sender)
  }

  lemma NoAcksAtFirst(s: System)
    requires Init(s)
    ensures AcksAboveZero(s)
  {
  }

  lemma AllAcksAbove(c: Config, s: System)
    requires c.Valid() && NumChunks(c.file) <= 1 && Reachable(c, s)
    ensures AcksAboveZero(s)
  {
    hide Reaches, Inv, AckAbove, Init;
    var s0: System, steps: seq<Step> :| Init(s0) && Reaches(c, s0, steps, s);
    InitInv(c, s0);
    NoAcksAtFirst(s0);
    RunKeepsAbove(c, s0, steps, s);
  }

  lemma OneChunkMoves(c: Config, s: System, since: int, x: Timed)
    requires c.Valid() && NumChunks(c.file) <= 1 && NextMove(c, s, since, x)
    ensures MovesOrTimesOut(c, s, since, x)
  {
    hide Inv, Reaches, Reachable, Hear;
    ReachableInv(c, s);
    SenderOfInv(c, s);
    SendBounds(c, s.sender);
    SenderBounds(c, s.sender);
    if x.step.DeliverAck? {
      AllAcksAbove(c, s);
      HearAbove(c, s, x.step.d, 0);
    }
  }

  lemma StaleAckMovesNothing(c: Config, s: System) returns (x: Timed)
    requires c.Valid() && CanStarve(c, s)
    ensures NextMove(c, s, 0, x) && !MovesOrTimesOut(c, s, 0, x)
  {
    hide Reachable, Inv, StaleAck, Apply;
    ReachableInv(c, s);
    var d :| StaleAck(s, d);
    x := Timed(DeliverAck(d), 1);
    StaleAckChangesNothing(c, s, d);
  }

  /** Whatever a listening sender does next, the window moves or is sent again after 500 ms,
      in every reachable state, iff the file has at most one chunk. */
  lemma EachMoveInTimeIff(c: Config)
    requires c.Valid() && c.recvWindow >= 1
    ensures (forall s, since, x | NextMove(c, s, since, x) :: MovesOrTimesOut(c, s, since, x))
            <==> NumChunks(c.file) <= 1
  {
    hide Reachable, Listening, Enabled, TimeOk, MovesOrTimesOut, StaleAck, CanStarve;
    if NumChunks(c.file) <= 1 {
      forall s, since, x | NextMove(c, s, since, x)
        ensures MovesOrTimesOut(c, s, since, x)
      {
        OneChunkMoves(c, s, since, x);
      }
    } else {
      var s := FirstAckHeard(c, 1);
      var x := StaleAckMovesNothing(c, s);
    }
  }

  /** From a reachable state in which the sender listens half a second or more passes, and the
      window does not move. */
  ghost predicate Idle(c: Config, s: System, since: int, xs: seq<Timed>, t: System, end: int) {
    && Reachable(c, s) && Listening(c, s.sender) && TimedReaches(c, s, since, xs, t, end)
    && (forall j | 0 <= j < |xs| :: !xs[j].step.Send?)
    && Base(t.sender) == Base(s.sender)
    && end >= since + 500
  }

  /** The window is sent again 500 ms after the sender last did something. */
  predicate SentAgainInTime(since: int, xs: seq<Timed>) {
    exists j :: 0 <= j < |xs| && xs[j] == Timed(Timeout, since + 500)
  }

  lemma ReachableOn(c: Config, s: System, step: Step)
    requires Reachable(c, s) && Enabled(c, s, step)
    ensures Reachable(c, Apply(c, s, step))
  {
    hide Init, Reaches, Enabled, Apply;
    var s0: System, steps: seq<Step> :| Init(s0) && Reaches(c, s0, steps, s);
    OneStep(c, s, step);
    ReachesTrans(c, s0, steps, s, [step], Apply(c, s, step));
  }

  lemma OthersKeepSender(c: Config, s: System, step: Step)
    requires Enabled(c, s, step) && !SendersStep(step)
    ensures Apply(c, s, step).sender == s.sender
  {
    hide Receive;
    match step
    case DeliverData(f, ack) => ReceiveKeepsSender(c, s, f.bytes, ack);
    case DeliverStart(d) => ReceiveKeepsSender(c, s, d, []);
    case LoseData(f) =>
    case LoseAck(d) =>
    case Damage(f, payload) =>
  }

  lemma MoveMeans(c: Config, s: System, since: int, x: Timed)
    requires Enabled(c, s, x.step) && MovesOrTimesOut(c, s, since, x)
    ensures x == Timed(Timeout, since + 500) || Base(Apply(c, s, x.step).sender) > Base(s.sender)
  {
  }

  lemma {:induction false} OneChunkInTime(c: Config, s: System, since: int, xs: seq<Timed>, t: System, end: int)
    requires c.Valid() && NumChunks(c.file) <= 1 && Idle(c, s, since, xs, t, end)
    ensures SentAgainInTime(since, xs)
    decreases |xs|
  {
    hide Reachable, Inv, Enabled, Apply, Listening, MovesOrTimesOut;
    var v := Apply(c, s, xs[0].step);
    ReachableInv(c, s);
    StepKeepsInv(c, s, xs[0].step);
    TimedIsRun(c, v, Since(since, xs[0]), xs[1..], t, end);
    if SendersStep(xs[0].step) {
      OneChunkMoves(c, s, since, xs[0]);
      RunRaises(c, v, Steps(xs[1..]), t);
      MoveMeans(c, s, since, xs[0]);
    } else {
      OthersKeepSender(c, s, xs[0].step);
      ReachableOn(c, s, xs[0].step);
      OneChunkInTime(c, v, since, xs[1..], t, end);
      var j :| 0 <= j < |xs[1..]| && xs[1..][j] == Timed(Timeout, since + 500);
      assert xs[j + 1] == xs[1..][j];
    }
  }

  lemma IdlesPast(c: Config, s: System) returns (xs: seq<Timed>)
    requires c.Valid() && CanStarve(c, s)
    ensures Idle(c, s, 0, xs, s, 500) && !SentAgainInTime(0, xs)
  {
    hide Reachable, Inv, StaleAck, TimedReaches, Listening;
    ReachableInv(c, s);
    var d :| StaleAck(s, d);
    xs := StaleAcksPostpone(c, s, d, 0, 500);
  }

  /** README.md asks that a window that has not moved for 500 ms be sent again. Every idle
      stretch of every transfer of a file keeps to that iff it has at most one chunk. */
  lemma SentAgainInTimeIff(c: Config)
    requires c.Valid() && c.recvWindow >= 1
    ensures (forall s, since, xs, t, end | Idle(c, s, since, xs, t, end) :: SentAgainInTime(since, xs))
            <==> NumChunks(c.file) <= 1
  {
    hide Idle, SentAgainInTime, StaleAck, CanStarve;
    if NumChunks(c.file) <= 1 {
      forall s, since, xs, t, end | Idle(c, s, since, xs, t, end)
        ensures SentAgainInTime(since, xs)
      {
        OneChunkInTime(c, s, since, xs, t, end);
      }
    } else {
      var s := FirstAckHeard(c, 1);
      var xs := IdlesPast(c, s);
    }
  }
}
