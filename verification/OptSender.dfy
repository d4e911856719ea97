/** The selective-ACK sender of cpp/src/opt: its window of flagged and timed packets, and
    what each step of sendData does to it. */
module OptSender {
  import opened Wire
  import opened Chunks
  import BaseS = BaseSender

  /** A packet of the window, with isAcked and sentTime in milliseconds. */
  datatype OptPacket = OptPacket(packet: Packet, acked: bool, sentTime: int) {
    function SeqNum(): u32 {
      packet.header.seqNum
    }
  }

  datatype OptState = OptState(offset: nat, dataSeqNum: u32, window: seq<OptPacket>)

  const INITIAL := OptState(0, 0, [])
  const TIMEOUT_MS := 500

  predicate CanSend(file: seq<byte>, w: int, s: OptState) {
    |s.window| < w && s.offset < |file|
  }

  predicate Running(file: seq<byte>, s: OptState) {
    s.offset < |file| || s.window != []
  }

  /** One turn of the inner loop at time now. */
  function SendChunk(file: seq<byte>, s: OptState, now: int): OptState
    requires s.offset < |file|
  {
    var p := NextPacket(file, s.offset, s.dataSeqNum);
    OptState(s.offset + |p.data|, ToU32(s.dataSeqNum + 1), s.window + [OptPacket(p, false, now)])
  }

  /** markPacketAsAcked: the first packet of that number is flagged; there may be none. */
  function Mark(w: seq<OptPacket>, seqNum: u32): seq<OptPacket>
    decreases |w|
  {
    if w == [] then []
    else if w[0].SeqNum() == seqNum then [w[0].(acked := true)] + w[1..]
    else [w[0]] + Mark(w[1..], seqNum)
  }

  lemma MarkOnce(w: seq<OptPacket>, k: nat, seqNum: u32)
    requires k < |w|
    ensures Mark(w[k..], seqNum) ==
            if w[k].SeqNum() == seqNum then [w[k].(acked := true)] + w[k + 1..]
            else [w[k]] + Mark(w[k + 1..], seqNum)
  {
    assert w[k..][1..] == w[k + 1..];
  }

  /** determineWindowAdvance: acknowledged packets leave from the front. */
  function Advance(w: seq<OptPacket>): seq<OptPacket>
    decreases |w|
  {
    if w != [] && w[0].acked then Advance(w[1..]) else w
  }

  function OnAck(s: OptState, seqNum: u32): OptState {
    s.(window := Advance(Mark(s.window, seqNum)))
  }

  /** hasTimedOut, at time now. */
  predicate HasTimedOut(p: OptPacket, now: int) {
    now - p.sentTime > TIMEOUT_MS
  }

  predicate Overdue(p: OptPacket, now: int) {
    !p.acked && HasTimedOut(p, now)
  }

  function Resend(p: OptPacket, now: int): OptPacket {
    if Overdue(p, now) then p.(sentTime := now) else p
  }

  /** The window after the loop that retransmits what is overdue. */
  function Retransmit(w: seq<OptPacket>, now: int): (r: seq<OptPacket>)
    ensures |r| == |w|
  {
    seq(|w|, k requires 0 <= k < |w| => Resend(w[k], now))
  }

  /** What sendData does at time now with the packet receiveAck returns. */
  function OnReply(s: OptState, p: Packet, now: int): OptState {
    if p.header.typ == TIMEOUT then s.(window := Retransmit(s.window, now))
    else if ChecksumOk(p) then OnAck(s, p.header.seqNum)
    else s
  }

  // ---- What the window always is ----

  function Base(s: OptState): int {
    s.dataSeqNum - |s.window|
  }

  /** The least number from i up to n that is not in heard, or n. */
  function Least(heard: set<int>, i: int, n: int): (m: int)
    requires i <= n
    ensures i <= m <= n
    ensures forall k | i <= k < m :: k in heard
    ensures m < n ==> m !in heard
    decreases n - i
  {
    if i < n && i in heard then Least(heard, i + 1, n) else i
  }

  lemma LeastIs(heard: set<int>, n: int, m: int)
    requires 0 <= m <= n
    requires forall k | 0 <= k < m :: k in heard
    requires m < n ==> m !in heard
    ensures Least(heard, 0, n) == m
  {
    var l := Least(heard, 0, n);
    assert l < m ==> l in heard;
    assert m < l ==> m in heard;
  }

  /** After dataSeqNum packets and the ACKs in heard: the window runs from the least number
      not heard up to dataSeqNum, and each flag says whether the number was heard. */
  ghost predicate SenderIs(file: seq<byte>, w: int, s: OptState, heard: set<int>) {
    && s.dataSeqNum <= NumChunks(file)
    && |s.window| <= w
    && s.offset == Offset(file, s.dataSeqNum)
    && (forall a | a in heard :: 0 <= a < s.dataSeqNum)
    && Base(s) == Least(heard, 0, s.dataSeqNum)
    && (forall k | 0 <= k < |s.window| ::
          && s.window[k].packet == Packets(file, s.dataSeqNum)[Base(s) + k]
          && s.window[k].acked == (Base(s) + k in heard))
  }

  lemma SeqNumsOf(file: seq<byte>, w: int, s: OptState, heard: set<int>)
    requires SenderIs(file, w, s, heard)
    ensures 0 <= Base(s) <= s.dataSeqNum
    ensures forall k | 0 <= k < Base(s) :: k in heard
    ensures forall k | 0 <= k < |s.window| :: s.window[k].SeqNum() == Base(s) + k
    ensures s.window != [] ==> !s.window[0].acked
  {
    hide DataPacket;
  }

  lemma SendKeeps(file: seq<byte>, w: int, s: OptState, heard: set<int>, now: int)
    requires NumChunks(file) < TWO32
    requires SenderIs(file, w, s, heard) && CanSend(file, w, s)
    ensures var t := SendChunk(file, s, now);
            && SenderIs(file, w, t, heard)
            && t.dataSeqNum == s.dataSeqNum + 1 && Base(t) == Base(s)
  {
    hide NextPacket, DataPacket, Offset, NumChunks;
    var n := s.dataSeqNum;
    NextIsDataPacket(file, n);
    var t := SendChunk(file, s, now);
    LeastIs(heard, n + 1, Base(s));
    forall k | 0 <= k < |t.window|
      ensures t.window[k].packet == Packets(file, n + 1)[Base(t) + k]
      ensures t.window[k].acked == (Base(t) + k in heard)
    {
      if k < |s.window| {
        assert t.window[k] == s.window[k];
        assert Packets(file, n + 1)[Base(t) + k] == Packets(file, n)[Base(t) + k];
      }
    }
  }

  lemma TimeoutKeeps(file: seq<byte>, w: int, s: OptState, heard: set<int>, now: int)
    requires SenderIs(file, w, s, heard)
    ensures SenderIs(file, w, s.(window := Retransmit(s.window, now)), heard)
  {
    hide DataPacket;
  }

  lemma {:induction false} MarkAt(w: seq<OptPacket>, base: int, seqNum: u32)
    requires forall k | 0 <= k < |w| :: w[k].SeqNum() == base + k
    ensures |Mark(w, seqNum)| == |w|
    ensures forall k | 0 <= k < |w| ::
              Mark(w, seqNum)[k] == if base + k == seqNum then w[k].(acked := true) else w[k]
    decreases |w|
  {
    if w != [] {
      var rest := w[1..];
      assert forall k | 0 <= k < |rest| :: rest[k] == w[k + 1];
      MarkAt(rest, base + 1, seqNum);
      assert w[0].SeqNum() == base + 0;
      if w[0].SeqNum() == seqNum {
        assert Mark(w, seqNum) == [w[0].(acked := true)] + rest;
      } else {
        assert Mark(w, seqNum) == [w[0]] + Mark(rest, seqNum);
      }
    }
  }

  lemma {:induction false} AdvanceDrops(w: seq<OptPacket>) returns (j: nat)
    ensures j <= |w| && Advance(w) == w[j..]
    ensures forall k | 0 <= k < j :: w[k].acked
    ensures j < |w| ==> !w[j].acked
    decreases |w|
  {
    if w != [] && w[0].acked {
      var i := AdvanceDrops(w[1..]);
      assert w[1..][i..] == w[i + 1..];
      assert forall k | 0 < k < i + 1 :: w[k] == w[1..][k - 1];
      j := i + 1;
    } else {
      j := 0;
    }
  }

  // What an ACK leaves of a numbered window: j packets go, and one more may be flagged.
  lemma AckShape(w: seq<OptPacket>, base: int, seqNum: u32) returns (j: nat)
    requires forall k | 0 <= k < |w| :: w[k].SeqNum() == base + k
    ensures var t := Advance(Mark(w, seqNum));
            && j <= |w| && |t| == |w| - j
            && (forall k | 0 <= k < |t| ::
                  t[k] == if base + j + k == seqNum then w[j + k].(acked := true) else w[j + k])
    ensures forall k | 0 <= k < j :: w[k].acked || base + k == seqNum
    ensures j < |w| ==> !w[j].acked && base + j != seqNum
  {
    MarkAt(w, base, seqNum);
    j := AdvanceDrops(Mark(w, seqNum));
  }

  /** v is the end of w, perhaps with more flags: no timer has been touched. */
  predicate SameTimes(w: seq<OptPacket>, v: seq<OptPacket>) {
    && |v| <= |w|
    && (forall k | 0 <= k < |v| :: v[k].sentTime == w[k + (|w| - |v|)].sentTime)
  }

  lemma SameTimesTrans(w: seq<OptPacket>, v: seq<OptPacket>, u: seq<OptPacket>)
    requires SameTimes(w, v) && SameTimes(v, u)
    ensures SameTimes(w, u)
  {
    forall k | 0 <= k < |u|
      ensures u[k].sentTime == w[k + (|w| - |u|)].sentTime
    {
      assert u[k].sentTime == v[k + (|v| - |u|)].sentTime;
    }
  }

  /** An ACK for anything sent is added to what has been heard, first time or not; one for
      anything else changes nothing. */
  lemma AckKeeps(file: seq<byte>, w: int, s: OptState, heard: set<int>, seqNum: u32)
    requires SenderIs(file, w, s, heard)
    ensures var t := OnAck(s, seqNum);
            && (seqNum < s.dataSeqNum ==> SenderIs(file, w, t, heard + {seqNum as int}))
            && (seqNum >= s.dataSeqNum ==> t == s)
            && t.dataSeqNum == s.dataSeqNum && t.offset == s.offset
            && SameTimes(s.window, t.window)
  {
    hide DataPacket, Packets, Offset, NumChunks, Mark, Advance, Least;
    SeqNumsOf(file, w, s, heard);
    var b, n := Base(s), s.dataSeqNum;
    var j := AckShape(s.window, b, seqNum);
    var t := OnAck(s, seqNum);
    if seqNum < n {
      var more := heard + {seqNum as int};
      forall k | 0 <= k < b + j
        ensures k in more
      {
        assert k >= b ==> s.window[k - b].acked || k == seqNum;
      }
      LeastIs(more, n, b + j);
      forall k | 0 <= k < |t.window|
        ensures t.window[k].packet == s.window[j + k].packet
        ensures t.window[k].acked == (b + j + k in more)
      {
        assert s.window[j + k].acked == (b + (j + k) in heard);
      }
    } else {
      assert t.window == s.window;
    }
  }

  // ---- Order and repetition of ACKs do not matter ----

  datatype Event = Push(now: int) | Acked(seqNum: u32) | Expire(now: int)

  function After(file: seq<byte>, s: OptState, e: Event): OptState {
    match e
    case Push(now) => if s.offset < |file| then SendChunk(file, s, now) else s
    case Acked(a) => OnAck(s, a)
    case Expire(now) => s.(window := Retransmit(s.window, now))
  }

  function AfterAll(file: seq<byte>, s: OptState, es: seq<Event>): OptState
    decreases |es|
  {
    if es == [] then s else AfterAll(file, After(file, s, es[0]), es[1..])
  }

  /** How many packets have been sent, and which have been acknowledged since they were. */
  datatype Account = Account(sent: int, heard: set<int>)

  function Count(file: seq<byte>, a: Account, e: Event): Account {
    match e
    case Push(_) => if a.sent < NumChunks(file) then a.(sent := a.sent + 1) else a
    case Acked(n) => if n < a.sent then a.(heard := a.heard + {n as int}) else a
    case Expire(_) => a
  }

  function CountAll(file: seq<byte>, a: Account, es: seq<Event>): Account
    decreases |es|
  {
    if es == [] then a else CountAll(file, Count(file, a, es[0]), es[1..])
  }

  lemma RoomToSend(file: seq<byte>, s: OptState, heard: set<int>)
    requires NumChunks(file) < TWO31 && SenderIs(file, TWO32, s, heard)
    ensures s.offset < |file| <==> s.dataSeqNum < NumChunks(file)
    ensures |s.window| < TWO32
  {
    ChunkSizes(file, s.dataSeqNum);
  }

  /** After any interleaving of sends, ACKs and timeouts the window is the one that what was
      sent and what was heard determine. */
  lemma {:induction false} WindowIsAccount(file: seq<byte>, s: OptState, a: Account, es: seq<Event>)
    requires NumChunks(file) < TWO31
    requires a.sent == s.dataSeqNum && SenderIs(file, TWO32, s, a.heard)
    ensures var t, b := AfterAll(file, s, es), CountAll(file, a, es);
            b.sent == t.dataSeqNum && SenderIs(file, TWO32, t, b.heard)
    decreases |es|
  {
    hide SenderIs, SendChunk, OnAck, Retransmit;
    if es != [] {
      match es[0] {
        case Push(now) =>
          RoomToSend(file, s, a.heard);
          if s.offset < |file| {
            SendKeeps(file, TWO32, s, a.heard, now);
          }
        case Acked(n) => AckKeeps(file, TWO32, s, a.heard, n);
        case Expire(now) => TimeoutKeeps(file, TWO32, s, a.heard, now);
      }
      WindowIsAccount(file, After(file, s, es[0]), Count(file, a, es[0]), es[1..]);
    }
  }

  /** A first send puts the packet at the end of the window under the time it is sent, without
      a flag, and touches no other. */
  lemma SendStamps(file: seq<byte>, w: int, s: OptState, heard: set<int>, now: int)
    requires NumChunks(file) < TWO32
    requires SenderIs(file, w, s, heard) && CanSend(file, w, s)
    ensures SendChunk(file, s, now).window
         == s.window + [OptPacket(DataPacket(file, s.dataSeqNum), false, now)]
  {
    hide NextPacket, DataPacket, Packets;
    NextIsDataPacket(file, s.dataSeqNum);
  }

  /** Two windows with one account hold the same packets under the same flags. */
  lemma AccountDeterminesWindow(file: seq<byte>, w: int, s: OptState, t: OptState, heard: set<int>)
    requires SenderIs(file, w, s, heard) && SenderIs(file, w, t, heard)
    requires s.dataSeqNum == t.dataSeqNum
    ensures |s.window| == |t.window| && s.offset == t.offset
    ensures forall k | 0 <= k < |s.window| ::
              s.window[k].packet == t.window[k].packet && s.window[k].acked == t.window[k].acked
  {
    hide Packets;
  }

  lemma InitialIs(file: seq<byte>)
    ensures SenderIs(file, TWO32, INITIAL, {})
  {
  }

  /** Confluence: two histories that sent as many packets and heard the same ACKs, in
      whatever order and however often, leave the same packets under the same flags. */
  lemma AckConfluence(file: seq<byte>, es: seq<Event>, fs: seq<Event>)
    requires NumChunks(file) < TWO31
    requires CountAll(file, Account(0, {}), es) == CountAll(file, Account(0, {}), fs)
    ensures var s, t := AfterAll(file, INITIAL, es), AfterAll(file, INITIAL, fs);
            && s.offset == t.offset && s.dataSeqNum == t.dataSeqNum && |s.window| == |t.window|
            && (forall k | 0 <= k < |s.window| ::
                  s.window[k].packet == t.window[k].packet && s.window[k].acked == t.window[k].acked)
  {
    InitialIs(file);
    WindowIsAccount(file, INITIAL, Account(0, {}), es);
    WindowIsAccount(file, INITIAL, Account(0, {}), fs);
    hide SenderIs, AfterAll, CountAll;
    AccountDeterminesWindow(file, TWO32, AfterAll(file, INITIAL, es), AfterAll(file, INITIAL, fs),
                            CountAll(file, Account(0, {}), es).heard);
  }

  // ---- Cumulative ACKs are many selective ones ----

  function HearAll(s: OptState, xs: seq<u32>): OptState
    decreases |xs|
  {
    if xs == [] then s else HearAll(OnAck(s, xs[0]), xs[1..])
  }

  function Numbers(xs: seq<u32>): (ns: set<int>)
    ensures forall i :: i in ns <==> exists j :: 0 <= j < |xs| && xs[j] == i
    decreases |xs|
  {
    if xs == [] then {} else {xs[0] as int} + Numbers(xs[1..])
  }

  lemma {:induction false} HearAllKeeps(file: seq<byte>, w: int, s: OptState, heard: set<int>, xs: seq<u32>)
    requires SenderIs(file, w, s, heard)
    requires forall i | i in Numbers(xs) :: i < s.dataSeqNum
    ensures var t := HearAll(s, xs);
            && SenderIs(file, w, t, heard + Numbers(xs))
            && t.dataSeqNum == s.dataSeqNum && t.offset == s.offset
            && SameTimes(s.window, t.window)
    decreases |xs|
  {
    if xs == [] {
      assert heard + Numbers(xs) == heard;
    } else {
      AckKeeps(file, w, s, heard, xs[0]);
      hide SenderIs, OnAck, SameTimes;
      assert xs[0] as int in Numbers(xs) && Numbers(xs[1..]) <= Numbers(xs);
      HearAllKeeps(file, w, OnAck(s, xs[0]), heard + {xs[0] as int}, xs[1..]);
      assert heard + Numbers(xs) == heard + {xs[0] as int} + Numbers(xs[1..]);
      SameTimesTrans(s.window, OnAck(s, xs[0]).window, HearAll(s, xs).window);
    }
  }

  function Below(n: nat): (below: set<int>)
    ensures forall i :: i in below <==> 0 <= i < n
  {
    if n == 0 then {} else Below(n - 1) + {n - 1}
  }

  /** The base sender's state: the same packets, without flags and times. */
  function Erase(s: OptState): BaseS.SenderState {
    BaseS.SenderState(s.offset, s.dataSeqNum, seq(|s.window|, k requires 0 <= k < |s.window| => s.window[k].packet))
  }

  // Once everything below a has been heard, what is left of an unflagged window is its end.
  lemma TailOfWindow(file: seq<byte>, w: int, s: OptState, t: OptState, base: nat, a: u32)
    requires base == Base(s) && SenderIs(file, w, s, Below(base)) && SenderIs(file, w, t, Below(a))
    requires base < a <= s.dataSeqNum == t.dataSeqNum && SameTimes(s.window, t.window)
    ensures t.window == s.window[a - base..]
  {
    hide Packets, Offset, NumChunks, Below;
    LeastIs(Below(a), s.dataSeqNum, a);
    var rest := s.window[a - base..];
    forall k | 0 <= k < |t.window|
      ensures t.window[k] == rest[k]
    {
      assert rest[k] == s.window[k + (a - base)];
    }
  }

  lemma EraseAcked(file: seq<byte>, w: int, s: OptState, a: u32)
    requires 0 <= Base(s) && SenderIs(file, w, s, Below(Base(s))) && Base(s) < a <= s.dataSeqNum
    ensures BaseS.OnAck(Erase(s), a) == Ok(Erase(s.(window := s.window[a - Base(s)..])))
  {
    hide Packets, Offset, NumChunks, Below;
    SeqNumsOf(file, w, s, Below(Base(s)));
    assert s.window[0].SeqNum() == Base(s) + 0;
    assert Erase(s).window[0] == s.window[0].packet;
    assert Erase(s).window[a - Base(s)..] == Erase(s.(window := s.window[a - Base(s)..])).window;
  }

  /** On a window without flags, what one cumulative ACK for everything below a does to the
      base sender the selective ACKs of the packets below a do between them to the opt
      sender, in any order, with repeats and with ACKs of packets already gone among them;
      and they touch no timer. */
  lemma CumulativeIsSelective(file: seq<byte>, w: int, s: OptState, a: u32, xs: seq<u32>)
    requires 0 <= Base(s) && SenderIs(file, w, s, Below(Base(s))) && Base(s) < a <= s.dataSeqNum
    requires Below(Base(s)) + Numbers(xs) == Below(a)
    ensures BaseS.OnAck(Erase(s), a) == Ok(Erase(HearAll(s, xs)))
    ensures HearAll(s, xs) == s.(window := s.window[a - Base(s)..])
  {
    hide SenderIs, SameTimes, HearAll, Numbers, Below, Erase, BaseS.OnAck;
    var base := Base(s);
    HearAllKeeps(file, w, s, Below(base), xs);
    TailOfWindow(file, w, s, HearAll(s, xs), base, a);
    EraseAcked(file, w, s, a);
  }

  // ---- What is left to do ----

  function Unacked(w: seq<OptPacket>): nat
    decreases |w|
  {
    if w == [] then 0 else (if w[0].acked then 0 else 1) + Unacked(w[1..])
  }

  /** Chunks not yet sent and packets sent but not acknowledged. */
  function Outstanding(file: seq<byte>, s: OptState): int {
    NumChunks(file) - s.dataSeqNum + Unacked(s.window)
  }

  lemma {:induction false} UnackedAppend(v: seq<OptPacket>, w: seq<OptPacket>)
    ensures Unacked(v + w) == Unacked(v) + Unacked(w)
    decreases |v|
  {
    if v == [] {
      assert v + w == w;
    } else {
      assert (v + w)[1..] == v[1..] + w;
      UnackedAppend(v[1..], w);
    }
  }

  lemma {:induction false} UnackedAdvance(w: seq<OptPacket>)
    ensures Unacked(Advance(w)) == Unacked(w)
    decreases |w|
  {
    if w != [] && w[0].acked {
      UnackedAdvance(w[1..]);
    }
  }

  lemma {:induction false} UnackedMark(w: seq<OptPacket>, base: int, seqNum: u32)
    requires forall k | 0 <= k < |w| :: w[k].SeqNum() == base + k
    ensures Unacked(Mark(w, seqNum)) ==
            Unacked(w) - if base <= seqNum < base + |w| && !w[seqNum - base].acked then 1 else 0
    decreases |w|
  {
    if w != [] {
      assert w[0].SeqNum() == base + 0;
      assert forall k | 0 <= k < |w[1..]| :: w[1..][k].SeqNum() == base + 1 + k;
      var m := Mark(w, seqNum);
      if w[0].SeqNum() == seqNum {
        assert m[1..] == w[1..];
      } else {
        assert m[1..] == Mark(w[1..], seqNum);
        UnackedMark(w[1..], base + 1, seqNum);
      }
    }
  }

  lemma {:induction false} UnackedResend(v: seq<OptPacket>, w: seq<OptPacket>)
    requires |v| == |w| && forall k | 0 <= k < |v| :: v[k].acked == w[k].acked
    ensures Unacked(v) == Unacked(w)
    decreases |v|
  {
    if v != [] {
      UnackedResend(v[1..], w[1..]);
    }
  }

  lemma HeardMeans(file: seq<byte>, w: int, s: OptState, heard: set<int>, seqNum: u32)
    requires SenderIs(file, w, s, heard)
    ensures seqNum < s.dataSeqNum && seqNum as int !in heard <==>
            Base(s) <= seqNum < Base(s) + |s.window| && !s.window[seqNum - Base(s)].acked
  {
    hide Packets;
  }

  /** Sending and timing out keep the measure; an ACK takes one off exactly when it is the
      first for a packet in the window. */
  lemma MeasureOfSteps(file: seq<byte>, w: int, s: OptState, heard: set<int>, now: int, seqNum: u32)
    requires NumChunks(file) < TWO32 && SenderIs(file, w, s, heard)
    ensures CanSend(file, w, s) ==> Outstanding(file, SendChunk(file, s, now)) == Outstanding(file, s)
    ensures Outstanding(file, s.(window := Retransmit(s.window, now))) == Outstanding(file, s)
    ensures Outstanding(file, OnAck(s, seqNum)) ==
            Outstanding(file, s) - if seqNum < s.dataSeqNum && seqNum as int !in heard then 1 else 0
  {
    hide Packets, NumChunks, NextPacket, SenderIs;
    SeqNumsOf(file, w, s, heard);
    if CanSend(file, w, s) {
      SendKeeps(file, w, s, heard, now);
      UnackedAppend(s.window, [OptPacket(NextPacket(file, s.offset, s.dataSeqNum), false, now)]);
    }
    UnackedResend(Retransmit(s.window, now), s.window);
    UnackedMark(s.window, Base(s), seqNum);
    UnackedAdvance(Mark(s.window, seqNum));
    HeardMeans(file, w, s, heard, seqNum);
  }

  /** The loop goes on exactly while something is outstanding. */
  lemma RunningIffOutstanding(file: seq<byte>, w: int, s: OptState, heard: set<int>)
    requires SenderIs(file, w, s, heard)
    ensures Running(file, s) <==> Outstanding(file, s) > 0
    ensures Running(file, s) <==> Base(s) < NumChunks(file)
  {
    hide Packets;
    ChunkSizes(file, s.dataSeqNum);
    SeqNumsOf(file, w, s, heard);
  }

  // ---- updateSocketTimeout ----

  /** The fold over the window, minTimeout starting at m. */
  function MinTimeout(w: seq<OptPacket>, now: int, m: int): int
    decreases |w|
  {
    if w == [] then m
    else
      var remaining := TIMEOUT_MS - (now - w[0].sentTime);
      MinTimeout(w[1..], now, if !w[0].acked && 0 < remaining < m then remaining else m)
  }

  function SocketTimeout(w: seq<OptPacket>, now: int): int {
    MinTimeout(w, now, TIMEOUT_MS)
  }

  function Remaining(p: OptPacket, now: int): int {
    TIMEOUT_MS - (now - p.sentTime)
  }

  /** m is the least of the start value and the positive remaining times of un-ACKed packets. */
  ghost predicate IsMinTimeout(w: seq<OptPacket>, now: int, start: int, m: int) {
    && m <= start
    && (forall p | p in w && !p.acked && Remaining(p, now) > 0 :: m <= Remaining(p, now))
    && (m == start || exists p :: p in w && !p.acked && Remaining(p, now) > 0 && m == Remaining(p, now))
  }

  lemma {:induction false} MinTimeoutIsMin(w: seq<OptPacket>, now: int, start: int)
    requires 0 < start
    ensures IsMinTimeout(w, now, start, MinTimeout(w, now, start))
    decreases |w|
  {
    if w != [] {
      var r := Remaining(w[0], now);
      var next := if !w[0].acked && 0 < r < start then r else start;
      MinTimeoutIsMin(w[1..], now, next);
      assert forall p | p in w :: p == w[0] || p in w[1..];
      assert w[0] in w && forall p | p in w[1..] :: p in w;
    }
  }

  datatype Timeval = Timeval(sec: int, usec: int)

  function ToTimeval(ms: int): Timeval {
    Timeval(ms / 1000, ms % 1000 * 1000)
  }

  /** The timeout set is that minimum, from 1 to 500 ms; the timeval says it exactly, and is
      never zero, which would mean to wait for ever. */
  lemma SocketTimeoutCorrect(w: seq<OptPacket>, now: int)
    ensures IsMinTimeout(w, now, TIMEOUT_MS, SocketTimeout(w, now))
    ensures 1 <= SocketTimeout(w, now) <= TIMEOUT_MS
    ensures var v := ToTimeval(SocketTimeout(w, now));
            v.sec * 1_000_000 + v.usec == SocketTimeout(w, now) * 1000 && v != Timeval(0, 0)
            && 0 <= v.usec < 1_000_000
  {
    MinTimeoutIsMin(w, now, TIMEOUT_MS);
  }

  // ---- A whole call of sendData ----

  /** One turn of the outer loop as the outside world makes it: when the window is filled,
      what receiveAck meets, and when it comes back. */
  datatype Tick = Tick(sendTime: int, reply: BaseS.Reply, wakeTime: int)

  datatype OptRun = OptRun(state: OptState, sent: seq<seq<byte>>, outcome: BaseS.Outcome)

  lemma ChunkAdvances(file: seq<byte>, s: OptState, now: int)
    requires s.offset < |file|
    ensures s.offset < SendChunk(file, s, now).offset <= |file|
  {
    hide CrcU32;
  }

  /** The inner loop. */
  function Fill(file: seq<byte>, w: int, s: OptState, now: int): (OptState, seq<seq<byte>>)
    decreases |file| - s.offset
  {
    if CanSend(file, w, s) then
      ChunkAdvances(file, s, now);
      var (t, sent) := Fill(file, w, SendChunk(file, s, now), now);
      (t, [Serialize(NextPacket(file, s.offset, s.dataSeqNum))] + sent)
    else (s, [])
  }

  lemma FillOnce(file: seq<byte>, w: int, s: OptState, now: int)
    ensures CanSend(file, w, s) ==>
              var (t, sent) := Fill(file, w, SendChunk(file, s, now), now);
              Fill(file, w, s, now) == (t, [Serialize(NextPacket(file, s.offset, s.dataSeqNum))] + sent)
    ensures !CanSend(file, w, s) ==> Fill(file, w, s, now) == (s, [])
  {
    hide NextPacket, SendChunk, Serialize;
  }

  /** The datagrams of the overdue packets of the window, in order. */
  function ResentBytes(w: seq<OptPacket>, now: int): seq<seq<byte>>
    decreases |w|
  {
    if w == [] then []
    else (if Overdue(w[0], now) then [Serialize(w[0].packet)] else []) + ResentBytes(w[1..], now)
  }

  /** One turn of the outer loop. Waiting means that it goes on. */
  function Turn(file: seq<byte>, w: int, s: OptState, tick: Tick): OptRun {
    var (t, sent) := Fill(file, w, s, tick.sendTime);
    match BaseS.ReceiveAck(tick.reply)
    case Err(f) => OptRun(t, sent, BaseS.Faulted(f))
    case Ok(p) =>
      var resent := if p.header.typ == TIMEOUT then ResentBytes(t.window, tick.wakeTime) else [];
      OptRun(OnReply(t, p, tick.wakeTime), sent + resent, BaseS.Waiting)
  }

  /** sendData from state s over the turns in ticks; Waiting is for the next one. */
  function Run(file: seq<byte>, w: int, s: OptState, ticks: seq<Tick>): OptRun
    decreases |ticks|
  {
    if !Running(file, s) then OptRun(s, [], BaseS.Finished)
    else if ticks == [] then OptRun(s, [], BaseS.Waiting)
    else
      var turn := Turn(file, w, s, ticks[0]);
      if turn.outcome != BaseS.Waiting then turn
      else
        var r := Run(file, w, turn.state, ticks[1..]);
        OptRun(r.state, turn.sent + r.sent, r.outcome)
  }

  lemma RunOnce(file: seq<byte>, w: int, s: OptState, ticks: seq<Tick>)
    ensures !Running(file, s) ==> Run(file, w, s, ticks) == OptRun(s, [], BaseS.Finished)
    ensures Running(file, s) && ticks == [] ==> Run(file, w, s, ticks) == OptRun(s, [], BaseS.Waiting)
    ensures Running(file, s) && ticks != [] ==>
              var turn := Turn(file, w, s, ticks[0]);
              Run(file, w, s, ticks) ==
              if turn.outcome != BaseS.Waiting then turn
              else
                var r := Run(file, w, turn.state, ticks[1..]);
                OptRun(r.state, turn.sent + r.sent, r.outcome)
  {
    hide Turn;
  }

  /** These are DATA packets n, n + 1, ... under time now, without flags. */
  predicate StampedInOrder(file: seq<byte>, ps: seq<OptPacket>, n: u32, now: int) {
    && n + |ps| <= TWO32
    && (forall k | 0 <= k < |ps| :: ps[k] == OptPacket(DataPacket(file, n + k), false, now))
  }

  lemma JoinStamped(file: seq<byte>, n: u32, ps: seq<OptPacket>, now: int)
    requires n + 1 < TWO32 && StampedInOrder(file, ps, n + 1, now)
    ensures StampedInOrder(file, [OptPacket(DataPacket(file, n), false, now)] + ps, n, now)
  {
    hide DataPacket;
    var all := [OptPacket(DataPacket(file, n), false, now)] + ps;
    forall k | 0 <= k < |all|
      ensures all[k] == OptPacket(DataPacket(file, n + k), false, now)
    {
      if k > 0 {
        assert ps[k - 1] == OptPacket(DataPacket(file, n + 1 + (k - 1)), false, now);
      }
    }
  }

  lemma FirstOfFill(file: seq<byte>, w: int, s: OptState, heard: set<int>)
    requires SenderIs(file, w, s, heard) && CanSend(file, w, s)
    ensures Serialize(NextPacket(file, s.offset, s.dataSeqNum)) == BaseS.DataBytes(file, s.dataSeqNum)
  {
    hide NextPacket, DataPacket, Serialize, Packets;
    NextIsDataPacket(file, s.dataSeqNum);
  }

  lemma RoomIs(file: seq<byte>, w: int, s: OptState, heard: set<int>)
    requires SenderIs(file, w, s, heard)
    ensures CanSend(file, w, s) <==> s.dataSeqNum < Min(NumChunks(file), Base(s) + w)
    ensures s.dataSeqNum <= Min(NumChunks(file), Base(s) + w)
  {
    hide Packets;
    ChunkSizes(file, s.dataSeqNum);
  }

  lemma InOrderSize(file: seq<byte>, sent: seq<seq<byte>>, n: u32, m: u32)
    requires BaseS.InOrder(file, sent, n, m)
    ensures |sent| == m - n
  {
  }

  lemma NoneStamped(file: seq<byte>, n: u32, now: int)
    ensures StampedInOrder(file, [], n, now)
  {
  }

  /** The inner loop sends each packet the window has room for, once and in order, and puts
      them behind those already there, all under the time of sending. */
  lemma {:induction false} FillInOrder(file: seq<byte>, w: int, s: OptState, heard: set<int>, now: int)
    returns (added: seq<OptPacket>)
    requires NumChunks(file) < TWO32 && SenderIs(file, w, s, heard)
    ensures var (t, sent) := Fill(file, w, s, now);
            && t.dataSeqNum == Min(NumChunks(file), Base(s) + w)
            && BaseS.InOrder(file, sent, s.dataSeqNum, t.dataSeqNum)
            && t.window == s.window + added && |added| == |sent|
            && StampedInOrder(file, added, s.dataSeqNum, now)
    decreases |file| - s.offset
  {
    hide SenderIs, SendChunk, NextPacket, DataPacket, BaseS.InOrder, BaseS.DataBytes, NumChunks, StampedInOrder, Base;
    FillOnce(file, w, s, now);
    RoomIs(file, w, s, heard);
    if CanSend(file, w, s) {
      ChunkAdvances(file, s, now);
      SendKeeps(file, w, s, heard, now);
      SendStamps(file, w, s, heard, now);
      var u := SendChunk(file, s, now);
      var rest := FillInOrder(file, w, u, heard, now);
      FirstOfFill(file, w, s, heard);
      var (t, sent) := Fill(file, w, u, now);
      InOrderSize(file, sent, u.dataSeqNum, t.dataSeqNum);
      BaseS.JoinInOrder(file, s.dataSeqNum, sent, t.dataSeqNum);
      JoinStamped(file, s.dataSeqNum, rest, now);
      var first := OptPacket(DataPacket(file, s.dataSeqNum), false, now);
      added := [first] + rest;
      assert s.window + [first] + rest == s.window + added;
    } else {
      BaseS.NoneInOrder(file, s.dataSeqNum);
      NoneStamped(file, s.dataSeqNum, now);
      added := [];
    }
  }

  lemma {:induction false} FillKeeps(file: seq<byte>, w: int, s: OptState, heard: set<int>, now: int)
    requires NumChunks(file) < TWO32 && SenderIs(file, w, s, heard)
    ensures var (t, sent) := Fill(file, w, s, now);
            && SenderIs(file, w, t, heard) && s.dataSeqNum <= t.dataSeqNum
            && BaseS.SentRange(file, sent, s.dataSeqNum, t.dataSeqNum)
    decreases |file| - s.offset
  {
    hide SenderIs, SendChunk, NextPacket, BaseS.SentRange, BaseS.DataBytes;
    FillOnce(file, w, s, now);
    if CanSend(file, w, s) {
      ChunkAdvances(file, s, now);
      SendKeeps(file, w, s, heard, now);
      var u := SendChunk(file, s, now);
      FillKeeps(file, w, u, heard, now);
      FirstOfFill(file, w, s, heard);
      BaseS.SentOne(file, s.dataSeqNum, u.dataSeqNum);
      var (t, rest) := Fill(file, w, u, now);
      BaseS.SentRangeJoin(file, [BaseS.DataBytes(file, s.dataSeqNum)], rest, s.dataSeqNum, u.dataSeqNum, t.dataSeqNum);
    } else {
      BaseS.NothingSent(file, s.dataSeqNum);
    }
  }

  /** The loop sends each overdue packet again, once and in the order of the window: whatever
      the packets before, one more at the end is sent last iff it has no flag and was sent
      more than 500 ms ago, and otherwise not at all. */
  lemma {:induction false} ResentInOrder(w: seq<OptPacket>, p: OptPacket, now: int)
    ensures ResentBytes([], now) == []
    ensures ResentBytes(w + [p], now) ==
            ResentBytes(w, now) + if !p.acked && now - p.sentTime > 500 then [Serialize(p.packet)] else []
    decreases |w|
  {
    hide Serialize;
    if w == [] {
      assert w + [p] == [p] && [p][1..] == [];
    } else {
      assert (w + [p])[1..] == w[1..] + [p];
      ResentInOrder(w[1..], p, now);
    }
  }

  /** A reply whose checksum is not that of its data changes nothing, flags and timers
      included. */
  lemma InvalidReplyIgnored(s: OptState, d: seq<byte>, now: int)
    requires ReceiveAckBytes(d).Ok?
    requires var p := ReceiveAckBytes(d).value; p.header.typ != 4 && p.header.checksum != CrcU32(p.data)
    ensures OnReply(s, BaseS.ReceiveAck(BaseS.Datagram(d)).value, now) == s
  {
    hide CrcU32, ReceiveAckBytes;
  }

  /** What one turn of the outer loop sends: the packets there is room for, in order; then,
      after a timeout, what is overdue in the window it has filled, and else nothing. */
  lemma TurnSendsInOrder(file: seq<byte>, w: int, s: OptState, heard: set<int>, tick: Tick)
    returns (fill: seq<seq<byte>>, again: seq<seq<byte>>)
    requires NumChunks(file) < TWO32 && SenderIs(file, w, s, heard)
    ensures Turn(file, w, s, tick).sent == fill + again
    ensures BaseS.InOrder(file, fill, s.dataSeqNum, Min(NumChunks(file), Base(s) + w))
    ensures var p := BaseS.ReceiveAck(tick.reply);
            again == if p.Ok? && p.value.header.typ == 4
                     then ResentBytes(Fill(file, w, s, tick.sendTime).0.window, tick.wakeTime) else []
    ensures tick.reply == BaseS.NoReply ==>
              BaseS.ReceiveAck(tick.reply).Ok? && BaseS.ReceiveAck(tick.reply).value.header.typ == 4
  {
    hide BaseS.InOrder, Fill, BaseS.ReceiveAck, SenderIs, NumChunks, OnReply, ResentBytes;
    var _ := FillInOrder(file, w, s, heard, tick.sendTime);
    BaseS.NoReplyIsTimeout(BaseS.INITIAL);
    var (t, sent) := Fill(file, w, s, tick.sendTime);
    var p := BaseS.ReceiveAck(tick.reply);
    fill := sent;
    again := if p.Ok? && p.value.header.typ == 4 then ResentBytes(t.window, tick.wakeTime) else [];
    assert sent + [] == sent;
  }

  lemma {:induction false} ResentBytesOfWindow(file: seq<byte>, w: seq<OptPacket>, from: u32, n: u32, now: int)
    requires from + |w| == n
    requires forall k | 0 <= k < |w| :: w[k].packet == DataPacket(file, from + k)
    ensures forall d | d in ResentBytes(w, now) :: exists i: u32 :: i < n && d == BaseS.DataBytes(file, i)
    decreases |w|
  {
    hide DataPacket, Serialize;
    if w != [] {
      assert w[0].packet == DataPacket(file, from + 0);
      assert Serialize(w[0].packet) == BaseS.DataBytes(file, from);
      ResentBytesOfWindow(file, w[1..], from + 1, n, now);
    }
  }

  lemma ResentAreData(file: seq<byte>, w: int, s: OptState, heard: set<int>, now: int)
    requires SenderIs(file, w, s, heard)
    ensures BaseS.SentRange(file, ResentBytes(s.window, now), s.dataSeqNum, s.dataSeqNum)
  {
    hide DataPacket, BaseS.DataBytes;
    SeqNumsOf(file, w, s, heard);
    forall k | 0 <= k < |s.window|
      ensures s.window[k].packet == DataPacket(file, Base(s) + k)
    {
      PacketAt(file, s.dataSeqNum, Base(s) + k);
    }
    ResentBytesOfWindow(file, s.window, Base(s), s.dataSeqNum, now);
  }

  lemma PaddedBufferIsLongEnough(reply: BaseS.Reply)
    ensures BaseS.ReceiveAck(reply).Err? ==> BaseS.ReceiveAck(reply) == Err(Overread)
  {
    hide ParseHeader, CrcU32;
  }

  lemma TurnKeeps(file: seq<byte>, w: int, s: OptState, heard: set<int>, tick: Tick) returns (more: set<int>)
    requires NumChunks(file) < TWO32 && SenderIs(file, w, s, heard)
    ensures var r := Turn(file, w, s, tick);
            && heard <= more && SenderIs(file, w, r.state, more) && s.dataSeqNum <= r.state.dataSeqNum
            && BaseS.SentRange(file, r.sent, s.dataSeqNum, r.state.dataSeqNum)
            && (r.outcome == BaseS.Waiting || r.outcome == BaseS.Faulted(Overread))
  {
    hide SenderIs, Fill, BaseS.ReceiveAck, ChecksumOk, OnAck, Retransmit, ResentBytes, BaseS.SentRange;
    FillKeeps(file, w, s, heard, tick.sendTime);
    PaddedBufferIsLongEnough(tick.reply);
    var (t, sent) := Fill(file, w, s, tick.sendTime);
    more := heard;
    if BaseS.ReceiveAck(tick.reply).Ok? {
      var p := BaseS.ReceiveAck(tick.reply).value;
      var resent := if p.header.typ == TIMEOUT then ResentBytes(t.window, tick.wakeTime) else [];
      ResentAreData(file, w, t, heard, tick.wakeTime);
      BaseS.NothingSent(file, t.dataSeqNum);
      BaseS.SentRangeJoin(file, sent, resent, s.dataSeqNum, t.dataSeqNum, t.dataSeqNum);
      TimeoutKeeps(file, w, t, heard, tick.wakeTime);
      AckKeeps(file, w, t, heard, p.header.seqNum);
      if p.header.typ != TIMEOUT && ChecksumOk(p) && p.header.seqNum < t.dataSeqNum {
        more := heard + {p.header.seqNum as int};
      }
    }
  }

  lemma HeardAtExit(file: seq<byte>, w: int, s: OptState, heard: set<int>)
    requires SenderIs(file, w, s, heard)
    ensures !Running(file, s) ==>
              s.dataSeqNum == NumChunks(file) && forall i | 0 <= i < NumChunks(file) :: i in heard
  {
    hide Packets, NumChunks;
    RunningIffOutstanding(file, w, s, heard);
    SeqNumsOf(file, w, s, heard);
  }

  /** A call of sendData, whatever it receives and whenever: nothing faults but a header
      whose length overruns the buffer; it sends nothing but DATA packets of the file, and
      each number up to dataSeqNum; what is out of the window or flagged was heard; and if
      the call returns, every chunk was sent and every number heard. */
  lemma {:induction false} SendDataHearsAll(file: seq<byte>, w: int, s: OptState, heard: set<int>, ticks: seq<Tick>)
    returns (more: set<int>)
    requires NumChunks(file) < TWO32 && SenderIs(file, w, s, heard)
    ensures var r := Run(file, w, s, ticks);
            && heard <= more && SenderIs(file, w, r.state, more) && s.dataSeqNum <= r.state.dataSeqNum
            && BaseS.SentRange(file, r.sent, s.dataSeqNum, r.state.dataSeqNum)
            && (r.outcome.Faulted? ==> r.outcome.fault == Overread)
            && (r.outcome == BaseS.Finished ==>
                  r.state.dataSeqNum == NumChunks(file) && forall i | 0 <= i < NumChunks(file) :: i in more)
    decreases |ticks|
  {
    hide SenderIs, Turn, NumChunks, Base, BaseS.SentRange;
    RunningIffOutstanding(file, w, s, heard);
    RunOnce(file, w, s, ticks);
    SeqNumsOf(file, w, s, heard);
    if Running(file, s) && ticks != [] {
      var next := TurnKeeps(file, w, s, heard, ticks[0]);
      var turn := Turn(file, w, s, ticks[0]);
      if turn.outcome == BaseS.Waiting {
        more := SendDataHearsAll(file, w, turn.state, next, ticks[1..]);
        var r := Run(file, w, turn.state, ticks[1..]);
        BaseS.SentRangeJoin(file, turn.sent, r.sent, s.dataSeqNum, turn.state.dataSeqNum, r.state.dataSeqNum);
      } else {
        more := next;
      }
    } else {
      more := heard;
      BaseS.NothingSent(file, s.dataSeqNum);
      HeardAtExit(file, w, s, heard);
    }
  }

  /** A call that still waits makes its next turn from the state it has reached: what it has
      sent stays sent, and what the turn sends comes after that. A call that has ended is not
      touched. */
  lemma {:induction false} RunGoesOn(file: seq<byte>, w: int, s: OptState, ticks: seq<Tick>, tick: Tick)
    ensures var r := Run(file, w, s, ticks);
            var turn := Turn(file, w, r.state, tick);
            Run(file, w, s, ticks + [tick]) ==
            if r.outcome != BaseS.Waiting then r
            else if turn.outcome == BaseS.Waiting && !Running(file, turn.state)
            then OptRun(turn.state, r.sent + turn.sent, BaseS.Finished)
            else OptRun(turn.state, r.sent + turn.sent, turn.outcome)
    decreases |ticks|
  {
    hide Turn, Run, Running;
    RunOnce(file, w, s, ticks);
    RunOnce(file, w, s, ticks + [tick]);
    if Running(file, s) {
      if ticks == [] {
        assert ticks + [tick] == [tick] && [tick][1..] == [];
        var turn := Turn(file, w, s, tick);
        RunOnce(file, w, turn.state, []);
        assert turn.sent + [] == turn.sent && [] + turn.sent == turn.sent;
      } else {
        assert (ticks + [tick])[1..] == ticks[1..] + [tick];
        var turn := Turn(file, w, s, ticks[0]);
        if turn.outcome == BaseS.Waiting {
          RunGoesOn(file, w, turn.state, ticks[1..], tick);
          var r := Run(file, w, turn.state, ticks[1..]);
          var more := Turn(file, w, r.state, tick);
          assert turn.sent + (r.sent + more.sent) == (turn.sent + r.sent) + more.sent;
        }
      }
    }
  }
}
