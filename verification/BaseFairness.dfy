/** What the base protocol guarantees over infinite runs with a moving sender and a fair
    network: sendData's loop exits iff the run never hangs. And it may hang all the same. */
module BaseFairness {
  import opened Wire
  import opened Chunks
  import opened BaseSender
  import opened BaseReceiver
  import opened Network
  import opened BaseProtocol
  import opened BaseLiveness
  import opened BaseRound

  /** States and steps, one of each for every natural number. */
  datatype InfiniteRun = InfiniteRun(state: nat -> System, step: nat -> Step)

  ghost predicate StepAt(c: Config, r: InfiniteRun, k: nat) {
    Enabled(c, r.state(k), r.step(k)) && r.state(k + 1) == Apply(c, r.state(k), r.step(k))
  }

  ghost predicate IsRun(c: Config, r: InfiniteRun) {
    Reachable(c, r.state(0)) && forall k: nat :: StepAt(c, r, k)
  }

  // ---- Fairness ----

  predicate ExitedAt(c: Config, r: InfiniteRun, k: nat) {
    Done(c, r.state(k))
  }

  predicate SendsAt(c: Config, r: InfiniteRun, k: nat) {
    r.step(k).Send? || ExitedAt(c, r, k)
  }

  predicate TimesOutAt(c: Config, r: InfiniteRun, k: nat) {
    r.step(k).Timeout? || ExitedAt(c, r, k)
  }

  predicate ResendsAt(r: InfiniteRun, i: int, k: nat) {
    r.step(k).Timeout? && Base(r.state(k).sender) <= i < r.state(k).sender.dataSeqNum
  }

  /** Step k brings packet i to the receiver undamaged. */
  ghost predicate DeliversAt(c: Config, r: InfiniteRun, i: u32, k: nat) {
    r.step(k).DeliverData? && !r.step(k).f.damaged && Carries(c.file, i, r.step(k).f)
  }

  predicate HearsAt(c: Config, r: InfiniteRun, d: seq<byte>, k: nat) {
    r.step(k) == DeliverAck(d) || ExitedAt(c, r, k)
  }

  /** As long as its loop runs the sender sends what it may, and timeouts come now and then. */
  ghost predicate SenderMoves(c: Config, r: InfiniteRun) {
    && (forall k: nat | CanSend(c.file, c.sendWindow, r.state(k).sender) ::
          exists m: nat :: k <= m && SendsAt(c, r, m))
    && (forall k: nat | !ExitedAt(c, r, k) :: exists m: nat :: k <= m && TimesOutAt(c, r, m))
  }

  ghost predicate ResendsFrom(r: InfiniteRun, i: int, k: nat) {
    exists m: nat :: k <= m && ResendsAt(r, i, m)
  }

  ghost predicate DeliversFrom(c: Config, r: InfiniteRun, i: u32, k: nat) {
    exists m: nat :: k <= m && DeliversAt(c, r, i, m)
  }

  ghost predicate ResendsForever(r: InfiniteRun, i: int) {
    forall k: nat :: ResendsFrom(r, i, k)
  }

  ghost predicate DeliversForever(c: Config, r: InfiniteRun, i: u32) {
    forall k: nat :: DeliversFrom(c, r, i, k)
  }

  /** The network never loses d from state k on. */
  ghost predicate StaysFrom(r: InfiniteRun, d: seq<byte>, k: nat) {
    forall m: nat | k <= m :: d in r.state(m).acks
  }

  ghost predicate HeardFrom(c: Config, r: InfiniteRun, d: seq<byte>, k: nat) {
    exists m: nat :: k <= m && HearsAt(c, r, d, m)
  }

  /** A packet sent for ever arrives for ever; an ACK that is never lost is heard. */
  ghost predicate NetworkIsFair(c: Config, r: InfiniteRun) {
    && (forall i: u32 | i < NumChunks(c.file) :: ResendsForever(r, i) ==> DeliversForever(c, r, i))
    && (forall d, k: nat | StaysFrom(r, d, k) :: HeardFrom(c, r, d, k))
  }

  ghost predicate Fair(c: Config, r: InfiniteRun) {
    IsRun(c, r) && SenderMoves(c, r) && NetworkIsFair(c, r)
  }

  // ---- Along a run ----

  lemma {:induction false} RunInv(c: Config, r: InfiniteRun, k: nat)
    requires c.Valid() && IsRun(c, r)
    ensures Inv(c, r.state(k))
    decreases k
  {
    hide Inv, Enabled, Apply, Reachable;
    if k == 0 {
      ReachableInv(c, r.state(0));
    } else {
      RunInv(c, r, k - 1);
      assert StepAt(c, r, k - 1);
      StepKeepsInv(c, r.state(k - 1), r.step(k - 1));
    }
  }

  lemma {:induction false} Later(c: Config, r: InfiniteRun, k: nat, m: nat)
    requires c.Valid() && IsRun(c, r) && k <= m
    ensures r.state(k).sender.dataSeqNum <= r.state(m).sender.dataSeqNum
    ensures Base(r.state(k).sender) <= Base(r.state(m).sender)
    ensures r.state(k).receiver.nextSeq <= r.state(m).receiver.nextSeq
    decreases m - k
  {
    hide Inv, Enabled, Apply, Reachable, Base;
    if k < m {
      Later(c, r, k, m - 1);
      RunInv(c, r, m - 1);
      assert StepAt(c, r, m - 1);
      NumbersGrow(c, r.state(m - 1), r.step(m - 1));
    }
  }

  lemma {:induction false} HungOn(c: Config, r: InfiniteRun, k: nat, m: nat)
    requires c.Valid() && IsRun(c, r) && !Finishable(c, r.state(k)) && k <= m
    ensures !Finishable(c, r.state(m))
    decreases m - k
  {
    hide Inv, Enabled, Apply, Reachable, Finishable;
    if k < m {
      HungOn(c, r, k, m - 1);
      RunInv(c, r, m - 1);
      assert StepAt(c, r, m - 1);
      HungStays(c, r.state(m - 1), r.step(m - 1));
    }
  }

  lemma DoneMeans(c: Config, s: System)
    requires Inv(c, s)
    ensures Done(c, s) <==> Base(s.sender) >= NumChunks(c.file)
    ensures Base(s.sender) <= NumChunks(c.file) && 0 <= Base(s.sender)
    ensures Base(s.sender) <= s.receiver.nextSeq <= s.sender.dataSeqNum <= NumChunks(c.file)
    ensures CanSend(c.file, c.sendWindow, s.sender) <==>
            s.sender.dataSeqNum < NumChunks(c.file) && s.sender.dataSeqNum - Base(s.sender) < c.sendWindow
  {
    hide SenderOk, FlightOk, AckOk, ReceiverOk;
    SendBounds(c, s.sender);
    SenderBounds(c, s.sender);
  }

  // A run that exits has never hung.
  lemma ExitedNeverHung(c: Config, r: InfiniteRun, j: nat, k: nat)
    requires c.Valid() && IsRun(c, r) && ExitedAt(c, r, j)
    ensures Finishable(c, r.state(k))
  {
    hide Inv, Reachable, StepAt, Done;
    var m := if j < k then k else j;
    Later(c, r, j, m);
    RunInv(c, r, j);
    RunInv(c, r, m);
    DoneMeans(c, r.state(j));
    DoneMeans(c, r.state(m));
    if !Finishable(c, r.state(k)) {
      HungOn(c, r, k, m);
      HungIsNotDone(c, r.state(m));
    }
  }

  // ---- A run that never hangs gets on ----

  predicate SameNumbers(s: System, t: System) {
    && t.sender.dataSeqNum == s.sender.dataSeqNum
    && Base(t.sender) == Base(s.sender)
    && t.receiver.nextSeq == s.receiver.nextSeq
  }

  /** The run never exits, never hangs, and none of its numbers moves after state k. */
  ghost predicate Stuck(c: Config, r: InfiniteRun, k: nat) {
    && (forall m: nat :: !ExitedAt(c, r, m))
    && (forall m: nat :: Finishable(c, r.state(m)))
    && (forall m: nat | k <= m :: SameNumbers(r.state(k), r.state(m)))
  }

  lemma StuckCannotSend(c: Config, r: InfiniteRun, k: nat)
    requires c.Valid() && Fair(c, r) && Stuck(c, r, k)
    ensures !CanSend(c.file, c.sendWindow, r.state(k).sender)
  {
    hide Inv, Reachable, Enabled, Apply, NetworkIsFair, Finishable, Done, CanSend;
    if CanSend(c.file, c.sendWindow, r.state(k).sender) {
      var m: nat :| k <= m && SendsAt(c, r, m);
      RunInv(c, r, m);
      assert StepAt(c, r, m) && !ExitedAt(c, r, m);
      assert SameNumbers(r.state(k), r.state(m)) && SameNumbers(r.state(k), r.state(m + 1));
      NumbersGrow(c, r.state(m), r.step(m));
    }
  }

  lemma StuckResends(c: Config, r: InfiniteRun, k: nat, i: int, n: nat)
    requires c.Valid() && Fair(c, r) && Stuck(c, r, k)
    requires Base(r.state(k).sender) <= i < r.state(k).sender.dataSeqNum
    ensures ResendsFrom(r, i, n)
  {
    hide IsRun, NetworkIsFair, Finishable, Done;
    var j := if n < k then k else n;
    assert !ExitedAt(c, r, j);
    var m: nat :| j <= m && TimesOutAt(c, r, m);
    assert !ExitedAt(c, r, m) && SameNumbers(r.state(k), r.state(m));
    assert ResendsAt(r, i, m);
  }

  lemma AwaitedMovesNumbers(c: Config, r: InfiniteRun, m: nat, i: u32)
    requires c.Valid() && c.recvWindow >= 1 && IsRun(c, r)
    requires i == r.state(m).receiver.nextSeq < NumChunks(c.file) && DeliversAt(c, r, i, m)
    ensures r.state(m + 1).receiver.nextSeq == i + 1
  {
    hide Inv, Reachable, OnDatagram, Carries, ReceiverOk;
    RunInv(c, r, m);
    InvBounds(c, r.state(m));
    assert StepAt(c, r, m);
    DataArrives(c, r.state(m).before, r.state(m).receiver, i, r.step(m).f);
  }

  lemma StuckHasDelivered(c: Config, r: InfiniteRun, k: nat)
    requires c.Valid() && c.recvWindow >= 1 && Fair(c, r) && Stuck(c, r, k)
    ensures r.state(k).receiver.nextSeq == r.state(k).sender.dataSeqNum
  {
    hide Inv, SenderMoves, IsRun, ResendsFrom, DeliversAt, Finishable, ExitedAt;
    RunInv(c, r, k);
    DoneMeans(c, r.state(k));
    var i := r.state(k).receiver.nextSeq;
    if i < r.state(k).sender.dataSeqNum {
      forall n: nat
        ensures ResendsFrom(r, i, n)
      {
        StuckResends(c, r, k, i, n);
      }
      assert ResendsForever(r, i);
      assert DeliversFrom(c, r, i, k);
      var m: nat :| k <= m && DeliversAt(c, r, i, m);
      assert SameNumbers(r.state(k), r.state(m)) && SameNumbers(r.state(k), r.state(m + 1));
      AwaitedMovesNumbers(c, r, m, i);
    }
  }

  /** The least number of an ACK that would help. */
  function Needed(c: Config, s: System): int {
    if s.sender.dataSeqNum < NumChunks(c.file) then Base(s.sender) else NumChunks(c.file) - 1
  }

  lemma AcksShrink(c: Config, s: System, step: Step)
    requires c.Valid() && Inv(c, s) && Enabled(c, s, step) && s.receiver.nextSeq == s.sender.dataSeqNum
    ensures Apply(c, s, step).acks <= s.acks
  {
    hide Inv, Hear, Receive;
    match step
    case Send =>
    case Timeout => HearChangesSender(s, NoReply);
    case DeliverAck(d) => HearChangesSender(s, Datagram(d));
    case DeliverData(f, ack) => DeliveredDataIgnored(c, s, f, ack);
    case DeliverStart(d) => StartIgnored(c, s, d);
    case LoseData(f) =>
    case LoseAck(d) =>
    case Damage(f, payload) =>
  }

  // Everything delivered, nothing to send: no ACK is added, and one that helps is under way.
  lemma StuckAcks(c: Config, r: InfiniteRun, k: nat, m: nat)
    requires c.Valid() && c.recvWindow >= 1 && Fair(c, r) && Stuck(c, r, k) && k <= m
    ensures Base(r.state(m).sender) <= Needed(c, r.state(k))
    ensures AckUnderWay(r.state(m), Needed(c, r.state(k)))
    ensures r.state(m + 1).acks <= r.state(m).acks
  {
    hide Inv, Reachable, Enabled, Apply, SenderMoves, NetworkIsFair, AckUnderWay, Done, CanSend;
    StuckHasDelivered(c, r, k);
    StuckCannotSend(c, r, k);
    RunInv(c, r, k);
    RunInv(c, r, m);
    assert !ExitedAt(c, r, k) && !ExitedAt(c, r, m) && Finishable(c, r.state(m));
    DoneMeans(c, r.state(k));
    DoneMeans(c, r.state(m));
    assert SameNumbers(r.state(k), r.state(m)) && StepAt(c, r, m);
    AcksShrink(c, r.state(m), r.step(m));
  }

  lemma {:induction false} AcksOnlyShrink(c: Config, r: InfiniteRun, k: nat, m: nat, n: nat)
    requires c.Valid() && c.recvWindow >= 1 && Fair(c, r) && Stuck(c, r, k) && k <= m <= n
    ensures r.state(n).acks <= r.state(m).acks
    decreases n - m
  {
    hide Fair, Stuck;
    if m < n {
      AcksOnlyShrink(c, r, k, m, n - 1);
      StuckAcks(c, r, k, n - 1);
    }
  }

  lemma SmallerSet<T>(a: set<T>, b: set<T>, x: T)
    requires a <= b && x in b && x !in a
    ensures |a| < |b|
  {
    var rest := b - a;
    assert b == a + rest && x in rest;
  }

  // Of finitely many ACKs, some that helps is never lost.
  lemma {:induction false} SomeAckStays(c: Config, r: InfiniteRun, k: nat, m: nat) returns (d: seq<byte>, n: nat)
    requires c.Valid() && c.recvWindow >= 1 && Fair(c, r) && Stuck(c, r, k) && k <= m
    ensures k <= n && AckAbove(d, Needed(c, r.state(k))) && StaysFrom(r, d, n)
    decreases |r.state(m).acks|
  {
    hide Fair, Stuck, AckAbove;
    StuckAcks(c, r, k, m);
    d :| d in r.state(m).acks && AckAbove(d, Needed(c, r.state(k)));
    n := m;
    if !StaysFrom(r, d, m) {
      var l: nat :| m <= l && d !in r.state(l).acks;
      AcksOnlyShrink(c, r, k, m, l);
      SmallerSet(r.state(l).acks, r.state(m).acks, d);
      d, n := SomeAckStays(c, r, k, l);
    }
  }

  lemma NeverStuck(c: Config, r: InfiniteRun, k: nat)
    requires c.Valid() && c.recvWindow >= 1 && Fair(c, r)
    ensures !Stuck(c, r, k)
  {
    hide Inv, Reachable, Enabled, Apply, SenderMoves, Finishable, Done, AckAbove, StaysFrom;
    if Stuck(c, r, k) {
      var d, n := SomeAckStays(c, r, k, k);
      assert HeardFrom(c, r, d, n);
      var m: nat :| n <= m && HearsAt(c, r, d, m);
      RunInv(c, r, m);
      StuckAcks(c, r, k, m);
      assert !ExitedAt(c, r, m) && StepAt(c, r, m);
      assert SameNumbers(r.state(k), r.state(m)) && SameNumbers(r.state(k), r.state(m + 1));
      HearAbove(c, r.state(m), d, Needed(c, r.state(k)));
    }
  }

  lemma Grows(c: Config, r: InfiniteRun, k: nat, m: nat)
    requires c.Valid() && Fair(c, r) && k <= m && !SameNumbers(r.state(k), r.state(m))
    ensures Remaining(c, r.state(m)) < Remaining(c, r.state(k))
  {
    hide IsRun, SenderMoves, NetworkIsFair;
    Later(c, r, k, m);
  }

  // Some number moves on from state k, if the run neither exits nor hangs.
  lemma SomethingMoves(c: Config, r: InfiniteRun, k: nat) returns (m: nat)
    requires c.Valid() && c.recvWindow >= 1 && Fair(c, r)
    requires forall m: nat :: !ExitedAt(c, r, m)
    requires forall m: nat :: Finishable(c, r.state(m))
    ensures Remaining(c, r.state(m)) < Remaining(c, r.state(k))
  {
    hide Fair, ExitedAt, Finishable;
    NeverStuck(c, r, k);
    m :| k <= m && !SameNumbers(r.state(k), r.state(m));
    Grows(c, r, k, m);
  }

  lemma {:induction false} ExitsIfNeverHung(c: Config, r: InfiniteRun, k: nat) returns (m: nat)
    requires c.Valid() && c.recvWindow >= 1 && Fair(c, r)
    requires forall j: nat :: Finishable(c, r.state(j))
    ensures ExitedAt(c, r, m)
    decreases Remaining(c, r.state(k))
  {
    hide Inv, SenderMoves, NetworkIsFair, ExitedAt, Finishable, Reachable, StepAt, Remaining;
    if j: nat :| ExitedAt(c, r, j) {
      m := j;
    } else {
      RunInv(c, r, k);
      RemainingNat(c, r.state(k));
      m := SomethingMoves(c, r, k);
      m := ExitsIfNeverHung(c, r, m);
    }
  }

  /** A fair run comes to the exit of sendData's loop iff no state of it is hung. */
  lemma FairRunExitsIff(c: Config, r: InfiniteRun)
    requires c.Valid() && c.recvWindow >= 1 && Fair(c, r)
    ensures (exists k: nat :: ExitedAt(c, r, k)) <==> (forall k: nat :: Finishable(c, r.state(k)))
  {
    hide IsRun, SenderMoves, NetworkIsFair, ExitedAt, Finishable;
    if j: nat :| ExitedAt(c, r, j) {
      forall k: nat
        ensures Finishable(c, r.state(k))
      {
        ExitedNeverHung(c, r, j, k);
      }
    }
    if forall k: nat :: Finishable(c, r.state(k)) {
      var m := ExitsIfNeverHung(c, r, 0);
    }
  }

  // ---- Such runs exist, and some hang ----

  /** Where a run stands after k of its steps, or all of them if there are fewer. */
  ghost function StateAt(c: Config, s: System, steps: seq<Step>, t: System, k: nat): System
    requires Reaches(c, s, steps, t)
    decreases k
  {
    if k == 0 || steps == [] then s else StateAt(c, Apply(c, s, steps[0]), steps[1..], t, k - 1)
  }

  lemma {:induction false} StateAtSteps(c: Config, s: System, steps: seq<Step>, t: System, k: nat)
    requires Reaches(c, s, steps, t)
    ensures var u := StateAt(c, s, steps, t, k);
            && (k < |steps| ==> Enabled(c, u, steps[k]) && StateAt(c, s, steps, t, k + 1) == Apply(c, u, steps[k]))
            && (k >= |steps| ==> u == t)
    decreases k
  {
    hide Enabled, Apply;
    if k > 0 && steps != [] {
      StateAtSteps(c, Apply(c, s, steps[0]), steps[1..], t, k - 1);
    }
  }

  lemma RepeatedStartStays(c: Config, s: System, d: seq<byte>)
    requires c.Valid() && Inv(c, s)
    requires var p := ParsePacket1(Truncate(d, RECV_BUFFER)); p.Ok? && p.value.header.typ == START
    ensures Enabled(c, s, DeliverStart(d)) && Apply(c, s, DeliverStart(d)) == s
  {
    hide SenderOk, FlightOk, AckOk, ReceiverOk, ParsePacket1, Truncate;
    StartIgnored(c, s, d);
  }

  // A run whose loop has exited by step n, with only START datagrams from then on.
  lemma FairAtTheEnd(c: Config, r: InfiniteRun, n: nat)
    requires forall k: nat | k >= n :: ExitedAt(c, r, k) && r.step(k).DeliverStart?
    ensures SenderMoves(c, r) && NetworkIsFair(c, r)
  {
    hide Done, CanSend, Carries;
    forall k: nat | CanSend(c.file, c.sendWindow, r.state(k).sender)
      ensures exists m: nat :: k <= m && SendsAt(c, r, m)
    {
      assert SendsAt(c, r, k + n);
    }
    forall k: nat | !ExitedAt(c, r, k)
      ensures exists m: nat :: k <= m && TimesOutAt(c, r, m)
    {
      assert TimesOutAt(c, r, k + n);
    }
    forall i: u32 | i < NumChunks(c.file)
      ensures !ResendsForever(r, i)
    {
      assert !ResendsFrom(r, i, n);
    }
    forall d, k: nat | StaysFrom(r, d, k)
      ensures HeardFrom(c, r, d, k)
    {
      assert HearsAt(c, r, d, k + n);
    }
  }

  /** Every reachable state that is not hung begins a fair run, and one that exits. */
  lemma FairRunsExit(c: Config, s: System) returns (r: InfiniteRun)
    requires c.Valid() && c.recvWindow >= 1 && Reachable(c, s) && Finishable(c, s)
    ensures r.state(0) == s && Fair(c, r) && exists k: nat :: ExitedAt(c, r, k)
  {
    hide Inv, Reachable, Reaches, Done, Enabled, Apply, Finishable, SenderMoves, NetworkIsFair;
    ReachableInv(c, s);
    var steps, t := Finish(c, s);
    RunKeepsInv(c, s, steps, t);
    var d := StartDatagram();
    r := InfiniteRun((k: nat) => StateAt(c, s, steps, t, k),
                     (k: nat) => if k < |steps| then steps[k] else DeliverStart(d));
    forall k: nat
      ensures StepAt(c, r, k)
    {
      StateAtSteps(c, s, steps, t, k);
      StateAtSteps(c, s, steps, t, k + 1);
      RepeatedStartStays(c, t, d);
    }
    forall k: nat | k >= |steps|
      ensures ExitedAt(c, r, k)
    {
      StateAtSteps(c, s, steps, t, k);
    }
    assert ExitedAt(c, r, |steps|);
    FairAtTheEnd(c, r, |steps|);
  }

  /** k modulo l. */
  function Slot(k: nat, l: nat): (j: nat)
    requires l > 0
    ensures j < l
    decreases k
  {
    if k < l then k else Slot(k - l, l)
  }

  lemma {:induction false} SlotOf(n: nat, l: nat, j: nat)
    requires j < l
    ensures n <= n * l && Slot(n * l + j, l) == j
    decreases n
  {
    if n > 0 {
      SlotOf(n - 1, l, j);
      assert n * l + j - l == (n - 1) * l + j;
    }
  }

  /** The last packets of the window, sent again and again and delivered each time. */
  function Cycle(s: System, k: nat): Step
    requires s.sender.window != []
  {
    if k % 2 == 0 then Timeout
    else DeliverData(Sent(s.sender.window[Slot(k / 2, |s.sender.window|)]), [])
  }

  // Everything has been delivered, the window is in the network, and no ACK is.
  ghost predicate Circles(c: Config, s: System) {
    && Inv(c, s) && Listening(c, s.sender) && s.sender.window != []
    && s.receiver.nextSeq == s.sender.dataSeqNum == NumChunks(c.file)
    && SentAll(s.sender.window) <= s.data && s.acks == {}
  }

  lemma WindowAt(c: Config, s: System, j: nat)
    requires Circles(c, s) && j < |s.sender.window|
    ensures 0 <= Base(s.sender) && Base(s.sender) + j < s.sender.dataSeqNum
    ensures s.sender.dataSeqNum == Base(s.sender) + |s.sender.window|
    ensures Carries(c.file, Base(s.sender) + j, Sent(s.sender.window[j]))
    ensures Sent(s.sender.window[j]) in s.data && !Sent(s.sender.window[j]).damaged
  {
    hide DataPacket, FlightOk, AckOk, Carries, ReceiverOk;
    PacketAt(c.file, s.sender.dataSeqNum, Base(s.sender) + j);
    SentCarries(c.file, Base(s.sender) + j);
    assert s.sender.window[j] in s.sender.window;
  }

  lemma CycleStays(c: Config, s: System, k: nat)
    requires c.Valid() && Circles(c, s)
    ensures Enabled(c, s, Cycle(s, k)) && Apply(c, s, Cycle(s, k)) == s
  {
    hide Inv, Hear, Receive, SentAll, Sent, Carries, OnDatagram, Listening, ReceiverOk, IsAckDatagram;
    NotFaulted(c, s);
    if k % 2 == 0 {
      TimeoutResends(c, s);
      assert s.data + SentAll(s.sender.window) == s.data;
    } else {
      var j := Slot(k / 2, |s.sender.window|);
      WindowAt(c, s, j);
      InvBounds(c, s);
      DataArrives(c, s.before, s.receiver, Base(s.sender) + j, Sent(s.sender.window[j]));
      DeliveredDataIgnored(c, s, Sent(s.sender.window[j]), []);
    }
  }

  lemma CycleDelivers(c: Config, s: System, r: InfiniteRun, i: u32, n: nat)
    requires Circles(c, s) && Base(s.sender) <= i < s.sender.dataSeqNum
    requires forall k: nat :: r.step(k) == Cycle(s, k)
    ensures DeliversFrom(c, r, i, n)
  {
    hide Circles, Carries, Sent;
    var l, j := |s.sender.window|, i - Base(s.sender);
    WindowAt(c, s, j);
    SlotOf(n, l, j);
    var m := 2 * (n * l + j) + 1;
    assert m % 2 == 1 && m / 2 == n * l + j;
    assert r.step(m) == Cycle(s, m);
    assert DeliversAt(c, r, i, m);
  }

  lemma HungCircles(c: Config, h: System) returns (s: System)
    requires c.Valid() && Reachable(c, h) && h.acks == {} && h.receiver.nextSeq == NumChunks(c.file)
    requires forall steps, t | Reaches(c, h, steps, t) :: !Done(c, t)
    ensures Circles(c, s) && s.sender.window != [] && Reachable(c, s) && !Done(c, s)
    ensures Output(s) == Output(h) && s.receiver == h.receiver
  {
    hide Inv, Reaches, Hear, SentAll;
    AtOnce(c, h);
    ReachableInv(c, h);
    NotFaulted(c, h);
    DoneMeans(c, h);
    var s0: System, steps: seq<Step> :| Init(s0) && Reaches(c, s0, steps, h);
    OneStep(c, h, Timeout);
    StepKeepsInv(c, h, Timeout);
    TimeoutResends(c, h);
    s := Apply(c, h, Timeout);
    ReachesTrans(c, s0, steps, h, [Timeout], s);
    ListeningHasWindow(c, s.sender);
  }

  lemma CycleTimesOut(s: System, k: nat)
    requires s.sender.window != [] && k % 2 == 0
    ensures Cycle(s, k) == Timeout
  {
  }

  lemma CirclesFairly(c: Config, s: System, r: InfiniteRun)
    requires c.Valid() && Circles(c, s) && Reachable(c, s) && !Done(c, s)
    requires forall k: nat :: r.state(k) == s && r.step(k) == Cycle(s, k)
    ensures Fair(c, r) && forall k: nat :: !ExitedAt(c, r, k)
  {
    hide Inv, Reachable, Enabled, Apply, Cycle, DeliversAt, Done;
    forall k: nat
      ensures StepAt(c, r, k)
    {
      CycleStays(c, s, k);
    }
    forall k: nat | !ExitedAt(c, r, k)
      ensures exists m: nat :: k <= m && TimesOutAt(c, r, m)
    {
      CycleTimesOut(s, 2 * k);
      assert r.step(2 * k) == Cycle(s, 2 * k);
      assert TimesOutAt(c, r, 2 * k);
    }
    forall i: u32 | i < NumChunks(c.file) && ResendsForever(r, i)
      ensures DeliversForever(c, r, i)
    {
      assert ResendsFrom(r, i, 0);
      forall n: nat
        ensures DeliversFrom(c, r, i, n)
      {
        CycleDelivers(c, s, r, i, n);
      }
    }
    forall d, k: nat
      ensures !StaysFrom(r, d, k)
    {
      assert d !in r.state(k).acks;
    }
  }

  /** A fair network is not enough: for every nonempty file and all windows there is a fair run
      from a state with the whole file written in which sendData's loop never exits. */
  lemma FairRunsHang(c: Config, start: u32) returns (r: InfiniteRun)
    requires c.Valid() && c.recvWindow >= 1 && c.file != []
    ensures Fair(c, r) && Output(r.state(0)) == c.file && r.state(0).receiver.startAck == ToInt32(start)
    ensures forall k: nat :: !ExitedAt(c, r, k)
  {
    hide Reachable, Reaches, Inv, Done, Cycle, Circles, SenderMoves, NetworkIsFair;
    var h := EveryTransferCanHang(c, start);
    var s := HungCircles(c, h);
    r := InfiniteRun((k: nat) => s, (k: nat) => Cycle(s, k));
    CirclesFairly(c, s, r);
  }
}
