/** What the opt protocol guarantees over infinite runs: if the sender keeps moving, timeouts
    recur, and the network lets through now and then what is sent again and again, sendData's
    loop exits with the file in the receiver's map. */
module OptFairness {
  import opened Wire
  import opened Chunks
  import opened OptSender
  import opened Network
  import opened OptProtocol
  import opened OptTimers
  import opened OptLiveness
  import Rcv = OptReceiver
  import BaseR = BaseReceiver

  /** States r and steps e, one of each for every natural number. */
  datatype InfiniteRun = InfiniteRun(state: nat -> System, step: nat -> Step)

  ghost predicate StepAt(c: Config, r: InfiniteRun, k: nat) {
    Enabled(c, r.state(k), r.step(k)) && r.state(k + 1) == Apply(c, r.state(k), r.step(k))
  }

  ghost predicate IsRun(c: Config, r: InfiniteRun) {
    Reachable(c, r.state(0)) && forall k: nat :: StepAt(c, r, k)
  }

  // ---- Fairness ----

  /** sendData's loop has exited. */
  predicate ExitedAt(c: Config, r: InfiniteRun, k: nat) {
    !Running(c.file, r.state(k).sender)
  }

  predicate SendsAt(c: Config, r: InfiniteRun, k: nat) {
    r.step(k).Send? || ExitedAt(c, r, k)
  }

  predicate TimesOutAt(c: Config, r: InfiniteRun, k: nat) {
    r.step(k).Timeout? || ExitedAt(c, r, k)
  }

  /** Step k sends packet i again. */
  ghost predicate ResendsAt(r: InfiniteRun, i: int, k: nat) {
    && Unheard(r.state(k), i)
    && Base(r.state(k).sender) <= i
    && Expires(r.step(k), SentTime(r.state(k).sender, i))
  }

  /** Step k brings packet i to the receiver undamaged. */
  ghost predicate DeliversAt(c: Config, r: InfiniteRun, i: u32, k: nat) {
    r.step(k).DeliverData? && !r.step(k).f.damaged && Carries(c.file, i, r.step(k).f)
  }

  /** At step k the receiver sends the ACK of packet i. */
  ghost predicate AcknowledgesAt(c: Config, r: InfiniteRun, i: u32, k: nat) {
    && r.step(k).DeliverData?
    && IsAckDatagram(r.step(k).ack, i)
    && r.step(k).ack in r.state(k + 1).acks
    && var a := Rcv.OnDatagram(c.recvWindow, r.state(k).receiver, r.step(k).f.bytes);
       a.Ok? && a.value.ack == BaseR.Some(i)
  }

  ghost predicate HearsAt(r: InfiniteRun, i: u32, k: nat) {
    r.step(k).DeliverAck? && IsAckDatagram(r.step(k).d, i)
  }

  /** As long as its loop runs the sender sends what it may, and timeouts come now and then:
      what starves its timers does not last for ever. */
  ghost predicate SenderMoves(c: Config, r: InfiniteRun) {
    && (forall k: nat | CanSend(c.file, c.sendWindow, r.state(k).sender) ::
          exists m: nat :: k <= m && SendsAt(c, r, m))
    && (forall k: nat | !ExitedAt(c, r, k) :: exists m: nat :: k <= m && TimesOutAt(c, r, m))
  }

  ghost predicate ResendsFrom(r: InfiniteRun, i: int, k: nat) {
    exists m: nat :: k <= m && ResendsAt(r, i, m)
  }

  ghost predicate ResendsForever(r: InfiniteRun, i: int) {
    forall k: nat :: ResendsFrom(r, i, k)
  }

  ghost predicate DeliversFrom(c: Config, r: InfiniteRun, i: u32, k: nat) {
    exists m: nat :: k <= m && DeliversAt(c, r, i, m)
  }

  ghost predicate DeliversForever(c: Config, r: InfiniteRun, i: u32) {
    forall k: nat :: DeliversFrom(c, r, i, k)
  }

  ghost predicate AcknowledgesFrom(c: Config, r: InfiniteRun, i: u32, k: nat) {
    exists m: nat :: k <= m && AcknowledgesAt(c, r, i, m)
  }

  ghost predicate AcknowledgesForever(c: Config, r: InfiniteRun, i: u32) {
    forall k: nat :: AcknowledgesFrom(c, r, i, k)
  }

  /** A packet sent for ever arrives for ever; an ACK sent for ever is heard. */
  ghost predicate NetworkIsFair(c: Config, r: InfiniteRun) {
    forall i: u32 | i < NumChunks(c.file) ::
      && (ResendsForever(r, i) ==> DeliversForever(c, r, i))
      && (AcknowledgesForever(c, r, i) ==> exists m: nat :: HearsAt(r, i, m))
  }

  // ---- Along a run ----

  lemma {:induction false} RunInv(c: Config, r: InfiniteRun, k: nat)
    requires c.Valid() && IsRun(c, r)
    ensures Inv(c, r.state(k))
    decreases k
  {
    hide Inv, Enabled, Apply, Reachable;
    if k == 0 {
      ReachableInv(c, r.state(0));
    } else {
      RunInv(c, r, k - 1);
      assert StepAt(c, r, k - 1);
      StepKeepsInv(c, r.state(k - 1), r.step(k - 1));
    }
  }

  lemma {:induction false} Later(c: Config, r: InfiniteRun, k: nat, m: nat)
    requires c.Valid() && IsRun(c, r) && k <= m
    ensures r.state(k).heard <= r.state(m).heard && r.state(k).now <= r.state(m).now
    ensures r.state(k).sender.dataSeqNum <= r.state(m).sender.dataSeqNum
    decreases m - k
  {
    hide Inv, Enabled, Apply, Reachable;
    if k < m {
      Later(c, r, k, m - 1);
      RunInv(c, r, m - 1);
      assert StepAt(c, r, m - 1);
      HeardGrows(c, r.state(m - 1), r.step(m - 1));
    }
  }

  /** Packet i is never heard, though it has been sent by state k. */
  ghost predicate Forgotten(r: InfiniteRun, i: int, k: nat) {
    && 0 <= i < r.state(k).sender.dataSeqNum
    && forall m: nat :: i !in r.state(m).heard
  }

  lemma ForgottenIsUnheard(c: Config, r: InfiniteRun, i: int, k: nat, m: nat)
    requires c.Valid() && IsRun(c, r) && Forgotten(r, i, k) && k <= m
    ensures Inv(c, r.state(m)) && Unheard(r.state(m), i)
    ensures Base(r.state(m).sender) <= i < r.state(m).sender.dataSeqNum
    ensures SentTime(r.state(m).sender, i) <= r.state(m).now
  {
    hide Inv, Reachable, StepAt, SentTime;
    RunInv(c, r, m);
    Later(c, r, k, m);
    UnheardInWindow(c, r.state(m), i);
  }

  // From k to m packet i is sent again, or its timer stays as it is.
  lemma {:induction false} ResentOrSame(c: Config, r: InfiniteRun, i: int, k: nat, m: nat) returns (j: nat)
    requires c.Valid() && IsRun(c, r) && Forgotten(r, i, k) && k <= m
    ensures Base(r.state(k).sender) <= i < r.state(k).sender.dataSeqNum
    ensures Base(r.state(m).sender) <= i < r.state(m).sender.dataSeqNum
    ensures k <= j && (ResendsAt(r, i, j) ||
                       SentTime(r.state(m).sender, i) == SentTime(r.state(k).sender, i))
    decreases m - k
  {
    hide Inv, Reachable, Enabled, Apply, SentTime, Expires, Unheard;
    ForgottenIsUnheard(c, r, i, k, k);
    ForgottenIsUnheard(c, r, i, k, m);
    j := k;
    if k < m {
      j := ResentOrSame(c, r, i, k, m - 1);
      if !ResendsAt(r, i, j) {
        ForgottenIsUnheard(c, r, i, k, m - 1);
        assert StepAt(c, r, m - 1);
        TimerStep(c, r.state(m - 1), r.step(m - 1), i);
        j := m - 1;
      }
    }
  }

  function AgeAt(r: InfiniteRun, i: int, k: nat): int
    requires Base(r.state(k).sender) <= i < r.state(k).sender.dataSeqNum
  {
    r.state(k).now - SentTime(r.state(k).sender, i)
  }

  lemma TimeoutsRecur(c: Config, r: InfiniteRun, k: nat) returns (m: nat)
    requires SenderMoves(c, r) && forall j: nat :: !ExitedAt(c, r, j)
    ensures k <= m && TimesOutAt(c, r, m)
  {
    m :| k <= m && TimesOutAt(c, r, m);
  }

  lemma TimeoutTakesTime(c: Config, s: System, step: Step)
    requires Enabled(c, s, step) && step.Timeout?
    ensures Apply(c, s, step).now == step.t > s.now
  {
    hide Hear, SocketTimeout;
    SocketTimeoutCorrect(s.sender.window, s.now);
    TimeoutIs(s, step.t);
  }

  // One timeout on from k: packet i has been sent again, or it is older.
  lemma OlderOrResent(c: Config, r: InfiniteRun, i: int, k: nat) returns (m: nat)
    requires c.Valid() && IsRun(c, r) && SenderMoves(c, r) && Forgotten(r, i, k)
    requires Base(r.state(k).sender) <= i && forall j: nat :: !ExitedAt(c, r, j)
    ensures k <= m
    ensures ResendsAt(r, i, m) ||
            (Forgotten(r, i, m) && Base(r.state(m).sender) <= i && AgeAt(r, i, k) < AgeAt(r, i, m) <= TIMEOUT_MS)
  {
    hide Inv, Reachable, Enabled, Apply, SentTime, SenderMoves, Unheard;
    var t := TimeoutsRecur(c, r, k);
    var j := ResentOrSame(c, r, i, k, t);
    if ResendsAt(r, i, j) {
      m := j;
    } else {
      ForgottenIsUnheard(c, r, i, k, t);
      ForgottenIsUnheard(c, r, i, k, t + 1);
      Later(c, r, k, t);
      assert StepAt(c, r, t);
      TimerStep(c, r.state(t), r.step(t), i);
      TimeoutTakesTime(c, r.state(t), r.step(t));
      m := if ResendsAt(r, i, t) then t else t + 1;
    }
  }

  lemma {:induction false} ResentLater(c: Config, r: InfiniteRun, i: int, k: nat) returns (m: nat)
    requires c.Valid() && IsRun(c, r) && SenderMoves(c, r) && Forgotten(r, i, k)
    requires Base(r.state(k).sender) <= i
    requires forall j: nat :: !ExitedAt(c, r, j)
    ensures k <= m && ResendsAt(r, i, m)
    decreases TIMEOUT_MS + 1 - AgeAt(r, i, k)
  {
    hide IsRun, SenderMoves, Forgotten, ResendsAt, ExitedAt;
    m := OlderOrResent(c, r, i, k);
    if !ResendsAt(r, i, m) {
      m := ResentLater(c, r, i, m);
    }
  }

  lemma ForgottenIsResent(c: Config, r: InfiniteRun, i: int, k: nat)
    requires c.Valid() && IsRun(c, r) && SenderMoves(c, r) && Forgotten(r, i, k)
    requires forall j: nat :: !ExitedAt(c, r, j)
    ensures ResendsForever(r, i)
  {
    hide IsRun, SenderMoves, ResendsAt, ExitedAt;
    forall n: nat
      ensures ResendsFrom(r, i, n)
    {
      var j := if n < k then k else n;
      ForgottenIsUnheard(c, r, i, k, j);
      var m := ResentLater(c, r, i, j);
    }
  }

  // A delivery is answered.
  lemma DeliveredIsAcknowledged(c: Config, r: InfiniteRun, i: u32, k: nat)
    requires c.Valid() && c.recvWindow >= 1 && IsRun(c, r) && i < NumChunks(c.file) && DeliversAt(c, r, i, k)
    ensures AcknowledgesAt(c, r, i, k)
  {
    hide Inv, Reachable, Carries, Rcv.OnDatagram, IsAckDatagram;
    assert StepAt(c, r, k);
    DataArrives(c, r.state(k).receiver, i, r.step(k).f);
  }

  lemma HeardAt(c: Config, r: InfiniteRun, i: u32, k: nat)
    requires c.Valid() && IsRun(c, r) && HearsAt(r, i, k)
    ensures i as int in r.state(k + 1).heard
  {
    hide Reachable, Inv, IsAckDatagram, Hear;
    RunInv(c, r, k);
    assert StepAt(c, r, k);
    var s, step := r.state(k), r.step(k);
    var a := AckNumber(c, s, step.d);
    AckHeard(s, step.d, a, step.t);
    AckHeard(s, step.d, i, step.t);
    AckNumberUnique(step.d, a, i);
  }

  lemma SentIsHeard(c: Config, r: InfiniteRun, i: u32, k: nat) returns (m: nat)
    requires c.Valid() && c.recvWindow >= 1 && IsRun(c, r) && SenderMoves(c, r) && NetworkIsFair(c, r)
    requires i < NumChunks(c.file) && i < r.state(k).sender.dataSeqNum
    requires forall j: nat :: !ExitedAt(c, r, j)
    ensures i as int in r.state(m).heard
  {
    hide IsRun, SenderMoves, ExitedAt, ResendsForever, DeliversAt, AcknowledgesAt, HearsAt;
    if forall j: nat :: i as int !in r.state(j).heard {
      ForgottenIsResent(c, r, i, k);
      assert DeliversForever(c, r, i);
      forall n: nat
        ensures AcknowledgesFrom(c, r, i, n)
      {
        assert DeliversFrom(c, r, i, n);
        var l: nat :| n <= l && DeliversAt(c, r, i, l);
        DeliveredIsAcknowledged(c, r, i, l);
      }
      assert AcknowledgesForever(c, r, i);
      var l: nat :| HearsAt(r, i, l);
      HeardAt(c, r, i, l);
    }
    m :| i as int in r.state(m).heard;
  }

  lemma RoomForNext(c: Config, s: System, i: u32)
    requires c.Valid() && Inv(c, s) && i < NumChunks(c.file) && s.sender.dataSeqNum <= i
    requires forall j | 0 <= j < i :: j in s.heard
    ensures s.sender.dataSeqNum == i && CanSend(c.file, c.sendWindow, s.sender)
  {
    hide FlightOk, StoredAckOk, Stored, Packets;
    SeqNumsOf(c.file, c.sendWindow, s.sender, s.heard);
    ChunkSizes(c.file, s.sender.dataSeqNum);
    assert i > s.sender.dataSeqNum ==> s.sender.dataSeqNum as int in s.heard;
  }

  // With everything below i heard, i has been sent or will be.
  lemma NextIsSent(c: Config, r: InfiniteRun, i: u32, k: nat) returns (m: nat)
    requires c.Valid() && IsRun(c, r) && SenderMoves(c, r) && i < NumChunks(c.file)
    requires forall j | 0 <= j < i :: j in r.state(k).heard
    requires forall j: nat :: !ExitedAt(c, r, j)
    ensures i < r.state(m).sender.dataSeqNum
  {
    hide Inv, Reachable, Enabled, Apply;
    m := k;
    RunInv(c, r, k);
    if r.state(k).sender.dataSeqNum <= i {
      RoomForNext(c, r.state(k), i);
      m :| k <= m && SendsAt(c, r, m);
      Later(c, r, k, m);
      RunInv(c, r, m);
      assert StepAt(c, r, m);
      HeardGrows(c, r.state(m), r.step(m));
      m := m + 1;
    }
  }

  lemma {:induction false} AllHeard(c: Config, r: InfiniteRun, i: u32) returns (k: nat)
    requires c.Valid() && c.recvWindow >= 1 && IsRun(c, r) && SenderMoves(c, r) && NetworkIsFair(c, r)
    requires i <= NumChunks(c.file)
    requires forall j: nat :: !ExitedAt(c, r, j)
    ensures forall j | 0 <= j < i :: j in r.state(k).heard
    decreases i
  {
    hide IsRun, SenderMoves, NetworkIsFair, ExitedAt;
    k := 0;
    if i > 0 {
      var before := AllHeard(c, r, i - 1);
      var sent := NextIsSent(c, r, i - 1, before);
      var heard := SentIsHeard(c, r, i - 1, sent);
      k := if before <= heard then heard else before;
      Later(c, r, before, k);
      Later(c, r, heard, k);
    }
  }

  lemma DoneReadsFile(c: Config, s: System)
    requires Inv(c, s) && !Running(c.file, s.sender)
    ensures ReadMap(s.receiver, NumChunks(c.file)) == c.file
  {
    hide FlightOk, StoredAckOk, Stored, Packets;
    SeqNumsOf(c.file, c.sendWindow, s.sender, s.heard);
    RunningIffOutstanding(c.file, c.sendWindow, s.sender, s.heard);
    ReadStored(c.file, s.receiver, NumChunks(c.file));
    AllChunksAreFile(c.file);
  }

  lemma AllHeardIsDone(c: Config, s: System)
    requires Inv(c, s) && forall j | 0 <= j < NumChunks(c.file) :: j in s.heard
    ensures !Running(c.file, s.sender)
  {
    hide FlightOk, StoredAckOk, Stored, Packets;
    SeqNumsOf(c.file, c.sendWindow, s.sender, s.heard);
    RunningIffOutstanding(c.file, c.sendWindow, s.sender, s.heard);
  }

  /** Every such run comes to a state in which sendData's loop has exited, and the receiver's
      map then reads as the file. */
  lemma FairRunsComplete(c: Config, r: InfiniteRun) returns (k: nat)
    requires c.Valid() && c.recvWindow >= 1 && IsRun(c, r) && SenderMoves(c, r) && NetworkIsFair(c, r)
    ensures ExitedAt(c, r, k)
    ensures ReadMap(r.state(k).receiver, NumChunks(c.file)) == c.file
  {
    hide Reachable, Inv, Running, SenderMoves, NetworkIsFair, ReadMap;
    if j: nat :| ExitedAt(c, r, j) {
      k := j;
    } else {
      k := AllHeard(c, r, NumChunks(c.file));
      RunInv(c, r, k);
      AllHeardIsDone(c, r.state(k));
    }
    RunInv(c, r, k);
    DoneReadsFile(c, r.state(k));
  }

  // ---- Such runs exist ----

  /** Where a run stands after k of its steps, or all of them if there are fewer. */
  ghost function StateAt(c: Config, s: System, steps: seq<Step>, t: System, k: nat): System
    requires Reaches(c, s, steps, t)
    decreases k
  {
    if k == 0 || steps == [] then s else StateAt(c, Apply(c, s, steps[0]), steps[1..], t, k - 1)
  }

  lemma {:induction false} StateAtSteps(c: Config, s: System, steps: seq<Step>, t: System, k: nat)
    requires Reaches(c, s, steps, t)
    ensures var u := StateAt(c, s, steps, t, k);
            && (k < |steps| ==>
                  && Enabled(c, u, steps[k])
                  && StateAt(c, s, steps, t, k + 1) == Apply(c, u, steps[k]))
            && (k >= |steps| ==> u == t)
    decreases k
  {
    hide Enabled, Apply;
    if k > 0 && steps != [] {
      StateAtSteps(c, Apply(c, s, steps[0]), steps[1..], t, k - 1);
    }
  }

  lemma RepeatedStartStays(c: Config, s: System, d: seq<byte>)
    requires c.Valid() && Inv(c, s)
    requires var p := ParsePacket1(Truncate(d, RECV_BUFFER)); p.Ok? && p.value.header.typ == START
    ensures Enabled(c, s, DeliverStart(d)) && Apply(c, s, DeliverStart(d)) == s
  {
    hide SenderIs, FlightOk, StoredAckOk, Stored, ParsePacket1, Truncate;
    StartIgnored(c, s, d);
  }

  // A run whose loop has exited by step n, with only START datagrams from then on.
  lemma FairAtTheEnd(c: Config, r: InfiniteRun, n: nat)
    requires forall k: nat | k >= n :: ExitedAt(c, r, k) && r.step(k).DeliverStart?
    ensures SenderMoves(c, r) && NetworkIsFair(c, r)
  {
    hide Running, CanSend, Carries, IsAckDatagram, Rcv.OnDatagram;
    forall k: nat | CanSend(c.file, c.sendWindow, r.state(k).sender)
      ensures exists m: nat :: k <= m && SendsAt(c, r, m)
    {
      assert SendsAt(c, r, k + n);
    }
    forall k: nat | !ExitedAt(c, r, k)
      ensures exists m: nat :: k <= m && TimesOutAt(c, r, m)
    {
      assert TimesOutAt(c, r, k + n);
    }
    forall i: u32 | i < NumChunks(c.file)
      ensures !ResendsForever(r, i) && !AcknowledgesForever(c, r, i)
    {
      assert !ResendsFrom(r, i, n) && !AcknowledgesFrom(c, r, i, n);
    }
  }

  /** Every reachable state begins a run that keeps these promises: they are not idle. */
  lemma FairRunsExist(c: Config, s: System) returns (r: InfiniteRun)
    requires c.Valid() && c.recvWindow >= 1 && Reachable(c, s)
    ensures r.state(0) == s && IsRun(c, r) && SenderMoves(c, r) && NetworkIsFair(c, r)
  {
    hide Inv, Reachable, Reaches, Running, Enabled, Apply;
    ReachableInv(c, s);
    var steps, t := Finish(c, s);
    OnTimeReaches(c, s, steps, t);
    var d := StartDatagram();
    r := InfiniteRun((k: nat) => StateAt(c, s, steps, t, k),
                (k: nat) => if k < |steps| then steps[k] else DeliverStart(d));
    forall k: nat
      ensures StepAt(c, r, k)
    {
      StateAtSteps(c, s, steps, t, k);
      StateAtSteps(c, s, steps, t, k + 1);
      RepeatedStartStays(c, t, d);
    }
    forall k: nat | k >= |steps|
      ensures ExitedAt(c, r, k)
    {
      StateAtSteps(c, s, steps, t, k);
    }
    FairAtTheEnd(c, r, |steps|);
  }
}
